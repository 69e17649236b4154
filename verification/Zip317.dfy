/** ZIP-317 fees: selecting and building a Zcash spend, and the fee the network expects of its bytes. */
module Zip317 {
  import opened Common
  import opened Rates
  import opened LittleEndian
  import opened Chain
  import opened Coins
  import Sorting
  import opened ZcashTx
  import opened ZcashSighash
  import ZcashRoundTrip

  const MARGINAL_FEE := 5000
  const GRACE_ACTIONS := 2
  const DUST_ZEC := 546
  const EXPIRY_DELTA := 40

  /** `zip317_fee`: the fee the wallet reckons with, before there are bytes. */
  function Zip317Fee(inputs: nat, outputs: nat, memoLen: nat): int {
    var outBytes := outputs * 34 + if memoLen > 0 then OpReturnVb(memoLen) + 1 else 0;
    MARGINAL_FEE * Max(GRACE_ACTIONS, Max(CeilDiv(inputs * 150, 150), CeilDiv(outBytes, 34)))
  }

  function ZecFee(memoLen: nat): FeeModel {
    (chosen: seq<Utxo>, outputs: nat) => Zip317Fee(|chosen|, outputs, memoLen) + CpfpSurcharge(chosen)
  }

  function ZecPrice(memoLen: nat): (nat, nat) -> int {
    (inputs: nat, outputs: nat) => Zip317Fee(inputs, outputs, memoLen)
  }

  /** `select_coins_zip317`. */
  function SelectZec(us: seq<Utxo>, send: int, memoLen: nat): Result<Selection, string> {
    Select(us, send, DUST_ZEC, ZecFee(memoLen))
  }

  lemma CeilMeans(a: nat, b: nat, k: nat)
    requires b > 0
    ensures CeilDiv(a, b) <= k <==> a <= k * b
  {
    CeilGalois(a, b, k);
  }

  /**
   * Zcash selection, on any pool: confirmed coins alone exactly when they can
   * cover the spend, with the fewest inputs that do. With every coin confirmed,
   * it succeeds exactly when it can.
   */
  lemma SelectZecOptimal(us: seq<Utxo>, send: int, memoLen: nat)
    ensures var r, price := SelectZec(us, send, memoLen), ZecPrice(memoLen);
            && (r.Ok? && AllConfirmed(r.value.utxos) <==> exists sub :: Covers(sub, us, send, price))
            && (forall sub :: Covers(sub, us, send, price) ==> |r.value.utxos| <= |sub|)
            && (AllConfirmed(us) ==> (r.Ok? <==> exists sub :: Covers(sub, us, send, price)))
  {
    var fee, price := ZecFee(memoLen), ZecPrice(memoLen);
    forall cs: seq<Utxo>, n: nat | AllConfirmed(cs) ensures fee(cs, n) == price(|cs|, n) {
      NoSurcharge(cs);
    }
    forall k: nat ensures price(k, 1) <= price(k, 2) {
      MoreOutputsCostMore(k, memoLen);
    }
    SelectExactlyWhenCovered(us, send, DUST_ZEC, fee, price);
    forall sub | Covers(sub, us, send, price) ensures |SelectZec(us, send, memoLen).value.utxos| <= |sub| {
      SelectFewest(us, send, DUST_ZEC, fee, price, sub);
    }
  }

  lemma MoreOutputsCostMore(inputs: nat, memoLen: nat)
    ensures Zip317Fee(inputs, 1, memoLen) <= Zip317Fee(inputs, 2, memoLen)
  {
    var memo := if memoLen > 0 then OpReturnVb(memoLen) + 1 else 0;
    CeilMeans(68 + memo, 34, CeilDiv(68 + memo, 34));
    CeilMeans(34 + memo, 34, CeilDiv(68 + memo, 34));
  }

  // --- building -------------------------------------------------------------

  predicate IsP2sh(script: seq<byte>) {
    |script| == 23 && script[..2] == [0xA9, 0x14] && script[22..] == [0x87]
  }

  const DEFAULT_DERIVATION := "m/44'/133'/0'/0/0"

  /** Decoding and encoding addresses and transaction ids, and deriving keys by path: not part of this model. */
  datatype Decoder = Decoder(script: string -> Option<seq<byte>>, address: seq<byte> -> Option<string>,
                             txid: string -> seq<byte>, key: string -> seq<byte>)

  predicate IsStandard(script: seq<byte>) { IsP2pkh(script) || IsP2sh(script) }

  /** Addresses and P2PKH and P2SH scripts belong to each other, and a txid has 32 bytes. */
  ghost predicate Standard(d: Decoder) {
    && (forall a :: d.script(a).Some? ==> IsStandard(d.script(a).value))
    && (forall s :: d.address(s).Some? ==> IsStandard(s))
    && (forall t :: |d.txid(t)| == 32)
  }

  datatype Request = Request(vault: string, amount: int, memo: Option<seq<byte>>, utxos: seq<Utxo>,
                             changeAddress: string, sweep: bool, height: int, branchId: int)

  function Payload(memo: Option<seq<byte>>): seq<byte> { if memo.None? then [] else memo.value }

  /** The inputs, fee and change of the spend. */
  function Funding(q: Request): Result<Selection, string> {
    if q.sweep then
      if Total(q.utxos) < q.amount then Err("amount exceeds balance")
      else Ok(Selection(q.utxos, Total(q.utxos) - q.amount, 0))
    else SelectZec(q.utxos, q.amount, |Payload(q.memo)|)
  }

  /** Recipient first, then the memo if there is one, then change if there is any. */
  function Outputs(d: Decoder, q: Request, change: int): Result<seq<TxOut>, string> {
    var vault := d.script(q.vault);
    if vault.None? then Err("not a transparent address")
    else
      var memo := EncodeOpReturn(Payload(q.memo));
      if q.memo.Some? && memo.Err? then Err(memo.error)
      else
        var outs := [TxOut(q.amount, vault.value)] + if q.memo.Some? then [TxOut(0, memo.value)] else [];
        if change <= 0 then Ok(outs)
        else
          var back := d.script(q.changeAddress);
          if back.None? then Err("not a transparent address") else Ok(outs + [TxOut(change, back.value)])
  }

  function Inputs(d: Decoder, us: seq<Utxo>): (r: seq<TxIn>)
    ensures |r| == |us|
    ensures forall k :: 0 <= k < |us| ==> r[k] == TxIn(d.txid(us[k].txid), us[k].vout, [], 0xFFFF_FFFF)
  {
    if us == [] then [] else [TxIn(d.txid(us[0].txid), us[0].vout, [], 0xFFFF_FFFF)] + Inputs(d, us[1..])
  }

  /** The transaction to sign, what to sign it with, and its outputs as the gate reads them back from its own bytes. */
  datatype ZecBuilt = ZecBuilt(tx: TxV4, spent: seq<Spent>, keys: seq<seq<byte>>, outputs: seq<TxOutput>, fee: int,
                               branchId: int)

  /** The transaction built for `q`, before it is checked that it can be serialized. */
  function Unsigned(d: Decoder, q: Request): Result<TxV4, string> {
    var sel := Funding(q);
    if sel.Err? then Err(sel.error)
    else
      var outs := Outputs(d, q, sel.value.change);
      if outs.Err? then Err(outs.error)
      else Ok(TxV4(Inputs(d, sel.value.utxos), outs.value, 0, q.height + EXPIRY_DELTA))
  }

  /**
   * What is built: the chosen coins spent in order, with no lock time, for 40
   * blocks; the recipient's script paid the amount, the memo at no value, the
   * change's script paid the change.
   */
  lemma UnsignedMeans(d: Decoder, q: Request)
    requires Unsigned(d, q).Ok?
    ensures var s, tx := Funding(q).value, Unsigned(d, q).value;
            && |tx.inputs| == |s.utxos| && tx.lockTime == 0 && tx.expiryHeight == q.height + 40
            && (forall k :: 0 <= k < |tx.inputs| ==>
                  tx.inputs[k].prevTxid == d.txid(s.utxos[k].txid) && tx.inputs[k].vout == s.utxos[k].vout
                  && tx.inputs[k].scriptSig == [] && tx.inputs[k].sequence == 0xFFFF_FFFF)
            && PaysAsAsked(d, q, s.change, tx.outputs)
  {
    OutputsMean(d, q, Funding(q).value.change);
  }

  predicate PaysAsAsked(d: Decoder, q: Request, change: int, outs: seq<TxOut>) {
    && |outs| == 1 + (if q.memo.Some? then 1 else 0) + (if change > 0 then 1 else 0)
    && d.script(q.vault).Some? && outs[0] == TxOut(q.amount, d.script(q.vault).value)
    && (q.memo.Some? ==> outs[1].value == 0 && DecodeOpReturn(outs[1].script) == Ok(q.memo.value))
    && (change > 0 ==>
          d.script(q.changeAddress).Some? && outs[|outs| - 1] == TxOut(change, d.script(q.changeAddress).value))
  }

  lemma OutputsMean(d: Decoder, q: Request, change: int)
    requires Outputs(d, q, change).Ok?
    ensures PaysAsAsked(d, q, change, Outputs(d, q, change).value)
  {
    if q.memo.Some? { OpReturnRoundTrip(q.memo.value); }
  }

  /** Every coin's address decodes. */
  predicate AddressesKnown(d: Decoder, us: seq<Utxo>) { forall u :: u in us ==> d.script(u.address).Some? }

  /** What each coin's own address says it is spending. */
  predicate SpentFor(d: Decoder, us: seq<Utxo>, spent: seq<Spent>) {
    && |spent| == |us|
    && forall k :: 0 <= k < |us| ==>
         d.script(us[k].address).Some? && spent[k] == Spent(d.script(us[k].address).value, us[k].value)
  }

  predicate KeysFor(d: Decoder, us: seq<Utxo>, keys: seq<seq<byte>>) {
    |keys| == |us| && forall k :: 0 <= k < |us| ==> keys[k] == d.key(PathOf(us[k], DEFAULT_DERIVATION))
  }

  /** An output as the gate sees it: by address, or by payload if it is an OP_RETURN. */
  function View(d: Decoder, o: TxOut): Result<TxOutput, string> {
    if o.script != [] && o.script[0] == OP_RETURN then
      var data :- DecodeOpReturn(o.script);
      Ok(TxOutput(d.address(o.script), o.value, Some(data)))
    else Ok(TxOutput(d.address(o.script), o.value, None))
  }

  function Views(d: Decoder, os: seq<TxOut>): Result<seq<TxOutput>, string> {
    if os == [] then Ok([])
    else
      var first :- View(d, os[0]);
      var rest :- Views(d, os[1..]);
      Ok([first] + rest)
  }

  /** The outputs of a spend as they read back: each under the address of its own script. */
  function SeenOutputs(d: Decoder, q: Request, change: int): seq<TxOutput>
    requires d.script(q.vault).Some? && (change > 0 ==> d.script(q.changeAddress).Some?)
  {
    [TxOutput(d.address(d.script(q.vault).value), q.amount, None)]
    + (if q.memo.Some? then [TxOutput(None, 0, q.memo)] else [])
    + (if change > 0 then [TxOutput(d.address(d.script(q.changeAddress).value), change, None)] else [])
  }

  /** The views of the parts are the parts of the view. */
  lemma {:induction false} ViewsConcat(d: Decoder, a: seq<TxOut>, b: seq<TxOut>, x: seq<TxOutput>, y: seq<TxOutput>)
    requires Views(d, a) == Ok(x) && Views(d, b) == Ok(y)
    ensures Views(d, a + b) == Ok(x + y)
  {
    if a == [] {
      assert a + b == b && x + y == y;
    } else {
      var first := View(d, a[0]).value;
      ViewsConcat(d, a[1..], b, x[1..], y);
      assert (a + b)[1..] == a[1..] + b && x == [first] + x[1..];
      Assoc([first], x[1..], y);
    }
  }

  lemma ViewOne(d: Decoder, o: TxOut)
    requires View(d, o).Ok?
    ensures Views(d, [o]) == Ok([View(d, o).value])
  {
    assert [o][1..] == [];
    assert [View(d, o).value] + [] == [View(d, o).value];
  }

  lemma StandardIsNotData(script: seq<byte>)
    requires IsStandard(script)
    ensures script != [] && script[0] != OP_RETURN
  {
    if IsP2pkh(script) {
      assert script[..3][0] == 0x76;
    } else {
      assert script[..2][0] == 0xA9;
    }
  }

  lemma ViewOfPayment(d: Decoder, value: int, script: seq<byte>)
    requires IsStandard(script)
    ensures Views(d, [TxOut(value, script)]) == Ok([TxOutput(d.address(script), value, None)])
  {
    StandardIsNotData(script);
    ViewOne(d, TxOut(value, script));
  }

  lemma ViewOfMemo(d: Decoder, payload: seq<byte>)
    requires Standard(d) && EncodeOpReturn(payload).Ok?
    ensures Views(d, [TxOut(0, EncodeOpReturn(payload).value)]) == Ok([TxOutput(None, 0, Some(payload))])
  {
    OpReturnRoundTrip(payload);
    var script := EncodeOpReturn(payload).value;
    if IsStandard(script) { StandardIsNotData(script); }
    assert d.address(script).None?;
    ViewOne(d, TxOut(0, script));
  }

  /** Every built output reads back, and as what it was built to be. */
  lemma ViewsOfOutputs(d: Decoder, q: Request, change: int)
    requires Standard(d) && Outputs(d, q, change).Ok?
    ensures Views(d, Outputs(d, q, change).value) == Ok(SeenOutputs(d, q, change))
  {
    var front := [TxOut(q.amount, d.script(q.vault).value)];
    var seen := [TxOutput(d.address(d.script(q.vault).value), q.amount, None)];
    ViewOfPayment(d, q.amount, d.script(q.vault).value);
    if q.memo.Some? {
      var memo := TxOut(0, EncodeOpReturn(Payload(q.memo)).value);
      ViewOfMemo(d, Payload(q.memo));
      ViewsConcat(d, front, [memo], seen, [TxOutput(None, 0, q.memo)]);
      front, seen := front + [memo], seen + [TxOutput(None, 0, q.memo)];
    }
    if change > 0 {
      var back := TxOut(change, d.script(q.changeAddress).value);
      ViewOfPayment(d, change, d.script(q.changeAddress).value);
      var paid := TxOutput(d.address(back.script), change, None);
      ViewsConcat(d, front, [back], seen, [paid]);
      front, seen := front + [back], seen + [paid];
    }
    assert Outputs(d, q, change).value == front && SeenOutputs(d, q, change) == seen;
  }

  /** `build_unsigned_swap`. */
  method BuildUnsignedSwap(d: Decoder, q: Request) returns (r: Result<ZecBuilt, string>)
    requires Standard(d)
    ensures r.Ok? <==> && Unsigned(d, q).Ok? && InRange(Unsigned(d, q).value)
                       && AddressesKnown(d, Funding(q).value.utxos)
    ensures r.Ok? ==> && r.value.tx == Unsigned(d, q).value && r.value.fee == Funding(q).value.fee
                      && Ok(r.value.outputs) == Views(d, r.value.tx.outputs)
                      && SpentFor(d, Funding(q).value.utxos, r.value.spent)
                      && KeysFor(d, Funding(q).value.utxos, r.value.keys)
                      && r.value.branchId == q.branchId
  {
    var s :- Fund(q);
    var tx :- MakeTx(d, q, s);
    var spent := SpentBy(d, s.utxos);
    if spent.None? {
      return Err("not a transparent address");
    }
    var keys := PrivateKeys(d, s.utxos);
    BuiltReadsBack(d, q);
    var outputs :- ReadBack(d, tx);
    return Ok(ZecBuilt(tx, spent.value, keys, outputs, s.fee, q.branchId));
  }

  method MakeTx(d: Decoder, q: Request, s: Selection) returns (r: Result<TxV4, string>)
    requires Funding(q) == Ok(s)
    ensures r == Unsigned(d, q)
  {
    var outs :- Outputs(d, q, s.change);
    return Ok(TxV4(Inputs(d, s.utxos), outs, 0, q.height + EXPIRY_DELTA));
  }

  lemma BuiltReadsBack(d: Decoder, q: Request)
    requires Standard(d) && Unsigned(d, q).Ok?
    ensures Views(d, Unsigned(d, q).value.outputs).Ok? && FullTxids(Unsigned(d, q).value)
  {
    ViewsOfOutputs(d, q, Funding(q).value.change);
  }

  /** Everything when sweeping, a selection otherwise. */
  method Fund(q: Request) returns (r: Result<Selection, string>)
    ensures r == Funding(q)
  {
    if q.sweep {
      var fee := Total(q.utxos) - q.amount;
      if fee < 0 {
        return Err("amount exceeds balance");
      }
      return Ok(Selection(q.utxos, fee, 0));
    }
    r := SelectCoins(q.utxos, q.amount, DUST_ZEC, ZecFee(|Payload(q.memo)|));
  }

  /** The outputs as the serialized transaction holds them. */
  method ReadBack(d: Decoder, tx: TxV4) returns (r: Result<seq<TxOutput>, string>)
    requires FullTxids(tx)
    ensures InRange(tx) ==> r == Views(d, tx.outputs)
    ensures !InRange(tx) ==> r.Err?
  {
    var raw :- SerializeV4(tx);
    ZcashRoundTrip.ParseOfSerialize(tx);
    var back := ParseV4(raw);
    return Views(d, back.value.outputs);
  }

  /** The key at each chosen coin's path. */
  method PrivateKeys(d: Decoder, us: seq<Utxo>) returns (keys: seq<seq<byte>>)
    ensures KeysFor(d, us, keys)
  {
    keys := [];
    for k := 0 to |us|
      invariant KeysFor(d, us[..k], keys)
    {
      keys := keys + [d.key(PathOf(us[k], DEFAULT_DERIVATION))];
    }
    assert us[..|us|] == us;
  }

  method SpentBy(d: Decoder, us: seq<Utxo>) returns (r: Option<seq<Spent>>)
    ensures r.Some? <==> AddressesKnown(d, us)
    ensures r.Some? ==> SpentFor(d, us, r.value)
  {
    var spent := [];
    for k := 0 to |us|
      invariant |spent| == k && forall j :: 0 <= j < k ==>
                  d.script(us[j].address).Some? && spent[j] == Spent(d.script(us[j].address).value, us[j].value)
    {
      var script := d.script(us[k].address);
      if script.None? {
        return None;
      }
      spent := spent + [Spent(script.value, us[k].value)];
    }
    return Some(spent);
  }

  // --- the fee against the bytes --------------------------------------------

  /** ZIP-317 section "Fee calculation", on the input and output sections as serialized. */
  function ConventionalFee(tx: TxV4): int
    requires InRange(tx)
  {
    FeeOfSizes(|All(InBytes, tx.inputs)|, |All(OutBytes, tx.outputs)|)
  }

  /** 5000 per logical action: 150 bytes of inputs or 34 of outputs, and never fewer than two. */
  function FeeOfSizes(inSize: nat, outSize: nat): int {
    MARGINAL_FEE * Max(GRACE_ACTIONS, Max(CeilDiv(inSize, 150), CeilDiv(outSize, 34)))
  }

  /** 5000 zatoshis for each action: as few as cover 150 bytes of inputs and 34 of outputs each, but two at least. */
  lemma ConventionalMeans(tx: TxV4) returns (actions: int)
    requires InRange(tx)
    ensures ConventionalFee(tx) == 5000 * actions && actions >= 2
    ensures |All(InBytes, tx.inputs)| <= 150 * actions && |All(OutBytes, tx.outputs)| <= 34 * actions
    ensures forall a: nat :: a >= 2 && |All(InBytes, tx.inputs)| <= 150 * a && |All(OutBytes, tx.outputs)| <= 34 * a ==>
              actions <= a
  {
    var ins, outs := |All(InBytes, tx.inputs)|, |All(OutBytes, tx.outputs)|;
    actions := Max(2, Max(CeilDiv(ins, 150), CeilDiv(outs, 34)));
    CeilGalois(ins, 150, actions);
    CeilGalois(outs, 34, actions);
    forall a: nat | a >= 2 && ins <= 150 * a && outs <= 34 * a ensures actions <= a {
      CeilGalois(ins, 150, a);
      CeilGalois(outs, 34, a);
    }
  }

  /** DER signatures of at most 72 bytes, compressed public keys of 33. */
  ghost predicate ShortSignatures(ecdsa: Ecdsa) {
    (forall key, m :: |ecdsa.sign(key, m)| <= 72) && forall key :: |ecdsa.publicKey(key)| == 33
  }

  lemma {:induction false} InputsSize(ins: seq<TxIn>)
    requires forall k :: 0 <= k < |ins| ==> InRangeIn(ins[k])
    requires forall k :: 0 <= k < |ins| ==> |ins[k].prevTxid| == 32 && |ins[k].scriptSig| <= 108
    ensures |All(InBytes, ins)| <= 149 * |ins|
  {
    if ins != [] {
      InputsSize(ins[1..]);
      assert |InBytes(ins[0])| <= 149;
    }
  }

  predicate HasChange(change: int) { change > 0 }

  /** The bytes of the outputs: at most 34 each, plus the memo output's own. */
  lemma OutputsSize(d: Decoder, q: Request, change: int)
    requires Standard(d) && Outputs(d, q, change).Ok?
    requires forall k :: 0 <= k < |Outputs(d, q, change).value| ==> InRangeOut(Outputs(d, q, change).value[k])
    ensures var size, m := |All(OutBytes, Outputs(d, q, change).value)|, |Payload(q.memo)|;
            var n := if HasChange(change) then 2 else 1;
            && (q.memo.None? ==> size <= 34 * n)
            && (q.memo.Some? ==> size <= 34 * n + OpReturnVb(m) + 1)
            && (q.memo.Some? && m == 0 ==> 32 * n + 11 <= size <= 34 * n + 11)
  {
    var outs := Outputs(d, q, change).value;
    var first := outs[0];
    assert |OutBytes(first)| == 9 + |first.script|;
    assert [first] == [] + [first];
    AllAppend(OutBytes, [], first);
    assert All(OutBytes, []) == [];
    var front := [first];
    if q.memo.Some? {
      OpReturnRoundTrip(Payload(q.memo));
      var memo := outs[1];
      assert |OutBytes(memo)| == 9 + |memo.script|;
      AllAppend(OutBytes, front, memo);
      front := front + [memo];
    }
    if HasChange(change) {
      var back := outs[|outs| - 1];
      assert |OutBytes(back)| == 9 + |back.script|;
      AllAppend(OutBytes, front, back);
      front := front + [back];
    }
    assert outs == front;
  }

  /** No recorded deficit is negative, as `cpfp_deficit` ensures. */
  predicate DeficitsOk(us: seq<Utxo>) { forall k :: 0 <= k < |us| ==> us[k].ancestorDeficit >= 0 }

  lemma {:induction false} DeficitOfNonNegative(us: seq<Utxo>, p: string)
    requires DeficitsOk(us)
    ensures DeficitOf(us, p) >= 0
  {
    if us != [] { DeficitOfNonNegative(us[..|us| - 1], p); }
  }

  lemma {:induction false} SurchargeNonNegative(us: seq<Utxo>, ps: seq<string>)
    requires DeficitsOk(us)
    ensures SumDeficits(us, ps) >= 0
  {
    if ps != [] {
      DeficitOfNonNegative(us, ps[0]);
      SurchargeNonNegative(us, ps[1..]);
    }
  }

  /** Everything the fee theorem assumes: `q` was built into a transaction, which was signed as `signed`. */
  ghost predicate BuiltAndSigned(d: Decoder, q: Request, h: Hash, ecdsa: Ecdsa, spent: seq<Spent>, keys: seq<seq<byte>>,
                                 branchId: int, signed: TxV4)
  {
    && Standard(d) && DeficitsOk(q.utxos) && Unsigned(d, q).Ok? && InRange(Unsigned(d, q).value)
    && ShortSignatures(ecdsa) && SameUnsigned(Unsigned(d, q).value, signed)
    && SignedUpTo(h, ecdsa, signed, spent, keys, branchId, signed.inputs)
  }

  /** Signing keeps the transaction serializable, and its inputs within the size the fee reckons with. */
  lemma SignedInputsSize(d: Decoder, q: Request, h: Hash, ecdsa: Ecdsa, spent: seq<Spent>, keys: seq<seq<byte>>,
                         branchId: int, signed: TxV4)
    requires BuiltAndSigned(d, q, h, ecdsa, spent, keys, branchId, signed)
    ensures InRange(signed) && |All(InBytes, signed.inputs)| <= 149 * |Funding(q).value.utxos|
  {
    var tx := Unsigned(d, q).value;
    forall k | 0 <= k < |signed.inputs|
      ensures InRangeIn(signed.inputs[k]) && |signed.inputs[k].prevTxid| == 32 && |signed.inputs[k].scriptSig| <= 108
    {
      assert SignedAt(h, ecdsa, signed, k, spent[k], keys[k], branchId, signed.inputs[k]);
      assert tx.inputs[k].(scriptSig := signed.inputs[k].scriptSig) == signed.inputs[k];
      assert InRangeIn(tx.inputs[k]);
    }
    InputsSize(signed.inputs);
  }

  /** The arithmetic of the comparison. */
  lemma FeeAgainstSizes(n: nat, outputs: nat, memo: nat, inSize: nat, outSize: nat)
    requires inSize <= 149 * n && outSize <= 34 * outputs + if memo > 0 then OpReturnVb(memo) + 1 else 0
    ensures FeeOfSizes(inSize, outSize) <= Zip317Fee(n, outputs, memo)
  {
    var outBytes := outputs * 34 + if memo > 0 then OpReturnVb(memo) + 1 else 0;
    CeilMeans(inSize, 150, CeilDiv(n * 150, 150));
    CeilMeans(n * 150, 150, CeilDiv(n * 150, 150));
    CeilMeans(outSize, 34, CeilDiv(outBytes, 34));
    CeilMeans(outBytes, 34, CeilDiv(outBytes, 34));
  }

  /** An empty memo still adds an output, which the wallet's reckoning leaves out. */
  lemma FeeWithEmptyMemo(n: nat, outputs: nat, inSize: nat, outSize: nat)
    requires n > 0 && 1 <= outputs <= 2 && inSize <= 149 * n && 32 * outputs + 11 <= outSize <= 34 * outputs + 11
    ensures FeeOfSizes(inSize, outSize) <= Zip317Fee(n, outputs, 0)
            + (if outputs == 2 && n < 3 then MARGINAL_FEE else 0)
    ensures outputs == 2 && n < 3 ==> FeeOfSizes(inSize, outSize) == Zip317Fee(n, outputs, 0) + MARGINAL_FEE
  {
    CeilMeans(inSize, 150, n);
    CeilMeans(n * 150, 150, n);
    CeilMeans(n * 150, 150, n - 1);
    CeilMeans(outSize, 34, outputs + 1);
    CeilMeans(outSize, 34, outputs);
    CeilMeans(34 * outputs, 34, outputs);
  }

  /**
   * The fee a Zcash spend pays reaches the conventional fee of its signed bytes
   * unless an empty memo comes with change on at most two inputs.
   */
  predicate FeeSuffices(q: Request)
    requires Funding(q).Ok?
  {
    var s := Funding(q).value;
    q.memo.None? || q.memo.value != [] || s.change == 0 || |s.utxos| >= 3 || CpfpSurcharge(s.utxos) >= MARGINAL_FEE
  }

  /** The sizes of a built and signed transaction, as the reckoning bounds them. */
  ghost predicate SizesBounded(hasMemo: bool, m: nat, inputs: nat, change: int, inSize: nat, outSize: nat) {
    var n := if HasChange(change) then 2 else 1;
    && inSize <= 149 * inputs
    && (!hasMemo ==> outSize <= 34 * n)
    && (hasMemo ==> outSize <= 34 * n + OpReturnVb(m) + 1)
    && (hasMemo && m == 0 ==> 32 * n + 11 <= outSize <= 34 * n + 11)
  }

  lemma SignedSizes(d: Decoder, q: Request, h: Hash, ecdsa: Ecdsa, spent: seq<Spent>, keys: seq<seq<byte>>,
                    branchId: int, signed: TxV4)
    requires BuiltAndSigned(d, q, h, ecdsa, spent, keys, branchId, signed)
    ensures InRange(signed)
    ensures SizesBounded(q.memo.Some?, |Payload(q.memo)|, |Funding(q).value.utxos|, Funding(q).value.change,
                         |All(InBytes, signed.inputs)|, |All(OutBytes, signed.outputs)|)
  {
    SignedInputsSize(d, q, h, ecdsa, spent, keys, branchId, signed);
    OutputsSize(d, q, Funding(q).value.change);
  }

  lemma FeeAgainstBytes(q: Request, signed: TxV4)
    requires DeficitsOk(q.utxos) && Funding(q).Ok? && !q.sweep && InRange(signed)
    requires SizesBounded(q.memo.Some?, |Payload(q.memo)|, |Funding(q).value.utxos|, Funding(q).value.change,
                          |All(InBytes, signed.inputs)|, |All(OutBytes, signed.outputs)|)
    ensures Funding(q).value.fee >= ConventionalFee(signed) <==> FeeSuffices(q)
  {
    var s, m := Funding(q).value, |Payload(q.memo)|;
    SelectedFee(q.utxos, q.amount, m);
    FeeDecides(q.memo.Some?, m, |s.utxos|, s.change, s.fee, CpfpSurcharge(s.utxos),
               |All(InBytes, signed.inputs)|, |All(OutBytes, signed.outputs)|);
  }

  lemma FeeIsConventional(d: Decoder, q: Request, h: Hash, ecdsa: Ecdsa, spent: seq<Spent>, keys: seq<seq<byte>>,
                          branchId: int, signed: TxV4)
    requires BuiltAndSigned(d, q, h, ecdsa, spent, keys, branchId, signed) && !q.sweep
    ensures InRange(signed)
    ensures Funding(q).value.fee >= ConventionalFee(signed) <==> FeeSuffices(q)
  {
    SignedSizes(d, q, h, ecdsa, spent, keys, branchId, signed);
    FeeAgainstBytes(q, signed);
  }

  /** What selection reckoned with, by whether there is change. */
  lemma SelectedFee(us: seq<Utxo>, send: int, m: nat)
    requires DeficitsOk(us) && SelectZec(us, send, m).Ok?
    ensures var s := SelectZec(us, send, m).value;
            && s.utxos != [] && CpfpSurcharge(s.utxos) >= 0
            && (s.change == 0 ==> s.fee >= Zip317Fee(|s.utxos|, 1, m) + CpfpSurcharge(s.utxos))
            && (s.change != 0 ==> s.change > 0 && s.fee == Zip317Fee(|s.utxos|, 2, m) + CpfpSurcharge(s.utxos))
  {
    var s := SelectZec(us, send, m).value;
    SelectionConserves(us, send, DUST_ZEC, ZecFee(m));
    ChosenDeficitsOk(us, s.utxos);
    SurchargeNonNegative(s.utxos, Parents(s.utxos));
  }

  /** The comparison, in numbers. */
  lemma FeeDecides(hasMemo: bool, m: nat, inputs: nat, change: int, fee: int, surcharge: int, inSize: nat, outSize: nat)
    requires inputs > 0 && surcharge >= 0 && (!hasMemo ==> m == 0)
    requires change == 0 ==> fee >= Zip317Fee(inputs, 1, m) + surcharge
    requires change != 0 ==> change > 0 && fee == Zip317Fee(inputs, 2, m) + surcharge
    requires SizesBounded(hasMemo, m, inputs, change, inSize, outSize)
    ensures fee >= FeeOfSizes(inSize, outSize) <==>
            !hasMemo || m > 0 || change == 0 || inputs >= 3 || surcharge >= MARGINAL_FEE
  {
    var n := if change > 0 then 2 else 1;
    if hasMemo && m == 0 {
      FeeWithEmptyMemo(inputs, n, inSize, outSize);
    } else {
      FeeAgainstSizes(inputs, n, m, inSize, outSize);
    }
  }

  lemma ChosenDeficitsOk(us: seq<Utxo>, chosen: seq<Utxo>)
    requires DeficitsOk(us) && chosen <= Ordered(us)
    ensures DeficitsOk(chosen)
  {
    Sorting.SortMultiset(us, TakenBefore);
    forall k | 0 <= k < |chosen| ensures chosen[k].ancestorDeficit >= 0 {
      assert chosen[k] == Ordered(us)[k];
      assert Ordered(us)[k] in multiset(us);
    }
  }

  lemma OneCoin(u: Utxo, send: int, memoLen: nat)
    requires u.confirmed && u.value - send - Zip317Fee(1, 2, memoLen) >= DUST_ZEC
    ensures CpfpSurcharge([u]) == 0
    ensures SelectZec([u], send, memoLen)
         == Ok(Selection([u], Zip317Fee(1, 2, memoLen), u.value - send - Zip317Fee(1, 2, memoLen)))
  {
    var pool := Ordered([u]);
    Sorting.SortMultiset([u], TakenBefore);
    assert pool[0] in multiset(pool);
    assert pool == [u] && pool[..1] == [u];
    NoSurcharge([u]);
    assert [u][1..] == [];
    assert Total([u]) == u.value;
    assert WithChange([u], send, DUST_ZEC, ZecFee(memoLen));
  }

  /** An empty memo and change, on one input: the fee is one action short. */
  lemma EmptyMemoUnderpays(d: Decoder, q: Request, h: Hash, ecdsa: Ecdsa, spent: seq<Spent>, keys: seq<seq<byte>>,
                           branchId: int, signed: TxV4)
    requires BuiltAndSigned(d, q, h, ecdsa, spent, keys, branchId, signed) && !q.sweep
    requires q.memo == Some([]) && q.amount == 50_000 && q.utxos == [Utxo("aa", 0, 100_000, "t1", None, true, 0)]
    ensures InRange(signed) && Funding(q).value.fee == 10_000 < ConventionalFee(signed)
  {
    var u := q.utxos[0];
    OneCoin(u, q.amount, |Payload(q.memo)|);
    FeeIsConventional(d, q, h, ecdsa, spent, keys, branchId, signed);
  }

  /** Known from the request alone: without a memo, or with a memo that says anything, the fee is enough. */
  lemma OrdinaryMemoPays(d: Decoder, q: Request, h: Hash, ecdsa: Ecdsa, spent: seq<Spent>, keys: seq<seq<byte>>,
                         branchId: int, signed: TxV4)
    requires BuiltAndSigned(d, q, h, ecdsa, spent, keys, branchId, signed) && !q.sweep && q.memo != Some([])
    ensures InRange(signed) && Funding(q).value.fee >= ConventionalFee(signed)
  {
    FeeIsConventional(d, q, h, ecdsa, spent, keys, branchId, signed);
  }

  function Zeros(n: nat): (r: seq<byte>)
    ensures |r| == n
  {
    seq(n, i => 0)
  }

  function PlainScript(): seq<byte> { [0x76, 0xA9, 0x14] + Zeros(20) + [0x88, 0xAC] }

  function EmptyMemoRequest(): Request {
    Request("t2", 50_000, Some([]), [Utxo("aa", 0, 100_000, "t1", None, true, 0)], "t1", false, 1_000_000, 0)
  }

  /** A decoder that knows every address and transaction id. */
  function PlainDecoder(): Decoder {
    Decoder((a: string) => Some(PlainScript()), (s: seq<byte>) => None, (t: string) => Zeros(32), (path: string) => [])
  }

  lemma EmptyMemoUnsigned() returns (tx: TxV4)
    ensures Standard(PlainDecoder()) && DeficitsOk(EmptyMemoRequest().utxos)
    ensures Unsigned(PlainDecoder(), EmptyMemoRequest()) == Ok(tx) && InRange(tx) && |tx.inputs| == 1
  {
    var q := EmptyMemoRequest();
    OneCoin(q.utxos[0], q.amount, |Payload(q.memo)|);
    assert EncodeOpReturn([]).Ok?;
    tx := Unsigned(PlainDecoder(), q).value;
    FitsBounds(0);
    FitsBounds(0xFFFF_FFFF);
    FitsBounds(q.height + EXPIRY_DELTA);
    FitsBounds(q.amount);
    FitsBounds(40_000);
  }

  lemma SignOne(h: Hash, ecdsa: Ecdsa, tx: TxV4, s: Spent, key: seq<byte>, branchId: int) returns (signed: TxV4)
    requires |tx.inputs| == 1 && CanSign(h, ecdsa, tx, 0, s, key, branchId)
    ensures SameUnsigned(tx, signed) && SignedUpTo(h, ecdsa, signed, [s], [key], branchId, signed.inputs)
  {
    var digest := Sighash(h, tx, 0, s, branchId);
    var input := tx.inputs[0].(scriptSig := ScriptSig(ecdsa.sign(key, digest), ecdsa.publicKey(key)));
    assert SignedAt(h, ecdsa, tx, 0, s, key, branchId, input);
    FilledIsSigned(h, ecdsa, tx, [s], [key], branchId, [input]);
    signed := tx.(inputs := [input]);
  }

  /** That request can be built and signed, with any ECDSA whose signatures verify: the shortfall is met in fact. */
  lemma EmptyMemoIsBuilt(h: Hash, ecdsa: Ecdsa) returns (spent: seq<Spent>, keys: seq<seq<byte>>, signed: TxV4)
    requires ShortSignatures(ecdsa) && forall key, m :: ecdsa.verify(ecdsa.publicKey(key), ecdsa.sign(key, m), m)
    ensures BuiltAndSigned(PlainDecoder(), EmptyMemoRequest(), h, ecdsa, spent, keys, 0, signed)
    ensures InRange(signed) && Funding(EmptyMemoRequest()).value.fee < ConventionalFee(signed)
  {
    var tx := EmptyMemoUnsigned();
    spent, keys := [Spent(PlainScript(), 100_000)], [[]];
    signed := SignOne(h, ecdsa, tx, spent[0], keys[0], 0);
    EmptyMemoUnderpays(PlainDecoder(), EmptyMemoRequest(), h, ecdsa, spent, keys, 0, signed);
  }

  /** `sweep_amount_zip317`: what is left of `total` after the fee of one output, and that fee. */
  function SweepAmount(total: int, inputs: nat, memoLen: nat): Result<(int, int), string> {
    var fee := Zip317Fee(inputs, 1, memoLen);
    if total - fee < DUST_ZEC then Err("too small to sweep") else Ok((total - fee, fee))
  }

  /** A sweep of the amount `sweep_amount_zip317` gives always pays enough, even with an empty memo. */
  lemma SweepFeeIsConventional(d: Decoder, q: Request, h: Hash, ecdsa: Ecdsa, spent: seq<Spent>, keys: seq<seq<byte>>,
                               branchId: int, signed: TxV4)
    requires BuiltAndSigned(d, q, h, ecdsa, spent, keys, branchId, signed) && q.sweep && q.utxos != []
    requires SweepAmount(Total(q.utxos), |q.utxos|, |Payload(q.memo)|).Ok?
    requires q.amount == SweepAmount(Total(q.utxos), |q.utxos|, |Payload(q.memo)|).value.0
    ensures InRange(signed) && Funding(q).value.fee >= ConventionalFee(signed)
  {
    var n, m := |q.utxos|, |Payload(q.memo)|;
    SignedInputsSize(d, q, h, ecdsa, spent, keys, branchId, signed);
    OutputsSize(d, q, 0);
    var inSize, outSize := |All(InBytes, signed.inputs)|, |All(OutBytes, signed.outputs)|;
    if q.memo.Some? && m == 0 {
      FeeWithEmptyMemo(n, 1, inSize, outSize);
    } else {
      FeeAgainstSizes(n, 1, m, inSize, outSize);
    }
  }
}
