/** Building UTXO transactions over neutral outputs, and passing them through the gate. */
module UtxoBuilder {
  import opened Common
  import opened Rates
  import opened Coins
  import opened CoinsComplete
  import opened Chain
  import opened Rbf
  import opened Verify

  /** An output as it reads back from the built transaction: by script for data, by address otherwise. */
  function Extract(o: TxOutput): Result<TxOutput, string> {
    if o.opReturnData.None? then Ok(TxOutput(o.address, o.value, None))
    else
      var script := EncodeOpReturn(o.opReturnData.value);
      if script.Err? then Err(script.error)
      else
        var data := DecodeOpReturn(script.value);
        if data.Err? then Err(data.error) else Ok(TxOutput(None, o.value, Some(data.value)))
  }

  /** Carrying every output over changes none of them; it fails only on data that does not fit. */
  function Rebuilt(os: seq<TxOutput>): seq<TxOutput> {
    seq(|os|, i requires 0 <= i < |os| =>
      if os[i].opReturnData.Some? then os[i].(address := None) else os[i])
  }

  ghost predicate DataFits(os: seq<TxOutput>) {
    forall i :: 0 <= i < |os| && os[i].opReturnData.Some? ==> |os[i].opReturnData.value| <= OP_RETURN_MAX_BYTES
  }

  /** The output loop of `build_replacement`, and `extract_outputs` after it. */
  method BuildOutputs(os: seq<TxOutput>) returns (r: Result<seq<TxOutput>, string>)
    ensures r.Ok? <==> DataFits(os)
    ensures r.Ok? ==> r.value == Rebuilt(os)
  {
    var built: seq<TxOutput> := [];
    for k := 0 to |os|
      invariant DataFits(os[..k]) && |built| == k
      invariant forall i :: 0 <= i < k ==> built[i] == Rebuilt(os)[i]
    {
      if os[k].opReturnData.Some? { OpReturnRoundTrip(os[k].opReturnData.value); }
      var o := Extract(os[k]);
      if o.Err? {
        return Err(o.error);
      }
      built := built + [o.value];
    }
    return Ok(built);
  }

  function OwnedBy(r: Replacement): set<string> {
    {r.changeAddress} + set i | 0 <= i < |r.inputs| :: r.inputs[i].address
  }

  /** What `build_and_verify_replacement` reports about a plan whose data fits. */
  function ReplacementProblems(r: Replacement, now: int, maxFee: int): seq<Problem> {
    var built := Rebuilt(r.outputs);
    (if r.memo.None?
     then SendProblems(built, r.fee, SendPlan(r.recipient, r.amount), OwnedBy(r), maxFee)
     else SwapProblems(built, r.fee, SwapPlan(r.recipient, r.amount, Binary(r.memo.value), now + 3600, ""),
                       OwnedBy(r), now, maxFee, OP_RETURN_MAX_BYTES))
    + (if Total(r.inputs) - TotalOut(built) != r.fee then [FeeMismatch] else [])
  }

  /** `build_and_verify_replacement`. */
  method BuildAndVerifyReplacement(r: Replacement, now: int, maxFee: int)
    returns (res: Result<seq<Problem>, string>)
    ensures res.Ok? <==> DataFits(r.outputs)
    ensures res.Ok? ==> res.value == ReplacementProblems(r, now, maxFee)
  {
    var built := BuildOutputs(r.outputs);
    if built.Err? {
      return Err(built.error);
    }
    var problems;
    if r.memo.None? {
      problems := VerifySend(built.value, r.fee, SendPlan(r.recipient, r.amount), OwnedBy(r), maxFee);
    } else {
      problems := VerifySwap(built.value, r.fee,
                             SwapPlan(r.recipient, r.amount, Binary(r.memo.value), now + 3600, ""),
                             OwnedBy(r), now, maxFee, OP_RETURN_MAX_BYTES);
    }
    if Total(r.inputs) - TotalOut(built.value) != r.fee {
      problems := problems + [FeeMismatch];
    }
    return Ok(problems);
  }

  // --- every plan passes ----------------------------------------------------

  /** How explorers report data outputs: a decoded payload only on an OP_RETURN. */
  ghost predicate WellReported(es: seq<TxEntry>) {
    forall i :: 0 <= i < |es| && es[i].opReturnData.Some? ==> es[i].opReturn
  }

  lemma {:induction false} RebuiltTotal(os: seq<TxOutput>)
    ensures TotalOut(Rebuilt(os)) == TotalOut(os)
  {
    if os != [] {
      RebuiltTotal(os[1..]);
      assert Rebuilt(os)[1..] == Rebuilt(os[1..]);
    }
  }

  /** The one output that is neither the change nor data. */
  ghost predicate PayeeAt(es: seq<TxEntry>, r: Replacement, payee: nat) {
    var c := r.changeIndex;
    && c < |es| && payee < |es| && payee != c && !es[payee].opReturn
    && r.recipient == OrEmpty(es[payee].address) && r.amount == es[payee].value
    && (es[payee].address.Some? && es[payee].opReturnData.None? ==> es[payee].address != es[c].address)
    && (forall i :: 0 <= i < |es| && !es[i].opReturn ==> i == payee || i == c)
  }

  lemma FindPayee(tx: TxSummary, t: Terms) returns (payee: nat)
    requires Plan(tx, t).Ok?
    ensures PayeeAt(tx.outputs, Plan(tx, t).value, payee)
  {
    var s := ShapeOf(tx, t.owned, t.changePrefix, t.script).value;
    var c := s.changeIndex;
    payee := s.payee;
    var payees := Where(tx.outputs, (i: nat, o: TxEntry) => i != c && !o.opReturn, 0);
    forall i | 0 <= i < |tx.outputs| && !tx.outputs[i].opReturn ensures i == payee || i == c {
      if i != c { assert i in payees; }
    }
    if tx.outputs[payee].address.Some? && tx.outputs[payee].opReturnData.None? {
      PayeeIsNotChange(tx, t, c, payee);
    }
  }

  /** The one data output, if there is any, and its payload. */
  ghost predicate MemoAt(es: seq<TxEntry>, data: Option<seq<byte>>, memo: Option<nat>) {
    && (memo.None? <==> data.None?)
    && (memo.None? ==> forall i :: 0 <= i < |es| ==> !es[i].opReturn)
    && (memo.Some? ==> memo.value < |es| && es[memo.value].opReturn && es[memo.value].opReturnData == data
                       && forall i :: 0 <= i < |es| && es[i].opReturn ==> i == memo.value)
  }

  lemma MemoIndex(tx: TxSummary) returns (memo: Option<nat>)
    requires MemoFound(tx).Ok?
    ensures MemoAt(tx.outputs, MemoFound(tx).value, memo)
  {
    var memos := Where(tx.outputs, (i: nat, o: TxEntry) => o.opReturn, 0);
    if memos == [] {
      memo := None;
      forall i | 0 <= i < |tx.outputs| ensures !tx.outputs[i].opReturn {
        assert i !in memos;
      }
    } else {
      memo := Some(memos[0]);
      assert memos[0] in memos;
      forall i | 0 <= i < |tx.outputs| && tx.outputs[i].opReturn ensures i == memos[0] {
        assert i in memos;
      }
    }
  }

  lemma FindMemo(tx: TxSummary, t: Terms) returns (memo: Option<nat>)
    requires Plan(tx, t).Ok?
    ensures MemoAt(tx.outputs, Plan(tx, t).value.memo, memo)
  {
    memo := MemoIndex(tx);
  }

  lemma PayeeIsNotChange(tx: TxSummary, t: Terms, c: nat, payee: nat)
    requires ChangeIndex(tx, t.owned, t.changePrefix) == Ok(c)
    requires payee < |tx.outputs| && payee != c && !tx.outputs[payee].opReturn
    requires tx.outputs[payee].address.Some? && tx.outputs[payee].opReturnData.None?
    ensures tx.outputs[payee].address != tx.outputs[c].address
  {
    var ours := Where(tx.outputs, (i: nat, o: TxEntry) => PaysUs(o, t.owned), 0);
    var internal := Where(tx.outputs, (i: nat, o: TxEntry) => OnChangeBranch(o, t.owned, t.changePrefix), 0);
    assert c in ours && (|ours| != 1 ==> c in internal);
    assert PaysUs(tx.outputs[payee], t.owned) ==> payee in ours;
    assert OnChangeBranch(tx.outputs[payee], t.owned, t.changePrefix) ==> payee in internal;
    assert |ours| == 1 && payee in ours ==> payee == c;
    assert |ours| != 1 && payee in internal ==> payee == c;
  }

  lemma PayeeOnce(built: seq<TxOutput>, payee: string, k: nat)
    requires k < |built| && built[k].address == Some(payee)
    requires forall i :: 0 <= i < |built| && built[i].address == Some(payee) ==> i == k
    ensures PayeeProblems(built, payee, built[k].value) == []
  {
    FilterOnly(built, (o: TxOutput) => o.address == Some(payee), k);
  }

  /** A payment at `p` and change at `c`, of different addresses. */
  predicate PayAndChange(built: seq<TxOutput>, p: nat, c: nat, owned: set<string>, payee: string) {
    && p < |built| && c < |built| && p != c && built[p].address == Some(payee)
    && built[c].address.Some? && built[c].address.value in owned && built[c].address != Some(payee)
  }

  ghost predicate SendReady(built: seq<TxOutput>, p: nat, c: nat, owned: set<string>, payee: string) {
    && PayAndChange(built, p, c, owned, payee)
    && forall i :: 0 <= i < |built| ==> built[i].opReturnData.None? && (i == p || i == c)
  }

  /** The same with a memo at `m`. */
  ghost predicate SwapReady(built: seq<TxOutput>, p: nat, c: nat, m: nat, owned: set<string>, payee: string,
                            memo: seq<byte>)
  {
    && PayAndChange(built, p, c, owned, payee)
    && m < |built| && built[m] == TxOutput(None, built[m].value, Some(memo)) && |memo| <= OP_RETURN_MAX_BYTES
    && forall i :: 0 <= i < |built| && i != m ==> built[i].opReturnData.None? && (i == p || i == c)
  }

  /** A payment and a change output: the send gate asks nothing but the fee. */
  lemma SendPasses(built: seq<TxOutput>, p: nat, c: nat, owned: set<string>, payee: string, fee: int, maxFee: int)
    requires SendReady(built, p, c, owned, payee)
    ensures SendProblems(built, fee, SendPlan(payee, built[p].value), owned, maxFee) == FeeProblems(fee, maxFee)
  {
    PayeeOnce(built, payee, p);
    ChangeProblemsNone(built, payee, owned);
    FilterNone(built, (o: TxOutput) => o.opReturnData.Some?);
  }

  /** The same with a memo output. */
  lemma SwapPasses(built: seq<TxOutput>, p: nat, c: nat, m: nat, owned: set<string>, payee: string, fee: int,
                   memo: seq<byte>, now: int, maxFee: int)
    requires SwapReady(built, p, c, m, owned, payee, memo)
    ensures SwapProblems(built, fee, SwapPlan(payee, built[p].value, Binary(memo), now + 3600, ""), owned, now, maxFee,
                         OP_RETURN_MAX_BYTES) == FeeProblems(fee, maxFee)
  {
    PayeeOnce(built, payee, p);
    ChangeProblemsNone(built, payee, owned);
    FilterOnly(built, (o: TxOutput) => o.opReturnData.Some?, m);
  }

  /** The neutral outputs of a bump, seen from the outputs of the original transaction. */
  ghost predicate BuiltFrom(es: seq<TxEntry>, r: Replacement, built: seq<TxOutput>) {
    && built == Rebuilt(r.outputs) && |built| == |es| && r.changeIndex < |built|
    && built[r.changeIndex].address.Some? && built[r.changeIndex].address.value in OwnedBy(r)
    && (forall i :: 0 <= i < |es| ==> built[i].opReturnData == es[i].opReturnData)
    && (forall i :: 0 <= i < |es| ==> built[i].address == if es[i].opReturnData.Some? then None else es[i].address)
    && (forall i :: 0 <= i < |es| && i != r.changeIndex ==> built[i].value == es[i].value)
  }

  lemma BuiltOutputs(tx: TxSummary, t: Terms) returns (built: seq<TxOutput>)
    requires Plan(tx, t).Ok? && WellReported(tx.outputs)
    ensures BuiltFrom(tx.outputs, Plan(tx, t).value, built)
  {
    BumpMovesOnlyChange(tx, t);
    built := Rebuilt(Plan(tx, t).value.outputs);
  }

  /** The roles of the original outputs carry over to the built ones. */
  lemma RolesReady(es: seq<TxEntry>, r: Replacement, built: seq<TxOutput>, payee: nat, memo: Option<nat>)
    requires PayeeAt(es, r, payee) && MemoAt(es, r.memo, memo) && BuiltFrom(es, r, built) && WellReported(es)
    requires r.recipient != "" && (r.memo.Some? ==> |r.memo.value| <= OP_RETURN_MAX_BYTES)
    ensures payee < |built| && built[payee].value == r.amount
    ensures memo.None? ==> SendReady(built, payee, r.changeIndex, OwnedBy(r), r.recipient)
    ensures memo.Some? ==> SwapReady(built, payee, r.changeIndex, memo.value, OwnedBy(r), r.recipient, r.memo.value)
    ensures DataFits(r.outputs)
  {
    forall i | 0 <= i < |r.outputs| && r.outputs[i].opReturnData.Some?
      ensures |r.outputs[i].opReturnData.value| <= OP_RETURN_MAX_BYTES
    {
      assert built[i].opReturnData == r.outputs[i].opReturnData;
    }
  }

  /** A bump of a known payee asks nothing of the gate but its fee. */
  lemma BumpGate(tx: TxSummary, t: Terms, now: int, maxFee: int)
    requires Plan(tx, t).Ok? && WellReported(tx.outputs)
    requires Plan(tx, t).value.recipient != ""
    requires Plan(tx, t).value.memo.Some? ==> |Plan(tx, t).value.memo.value| <= OP_RETURN_MAX_BYTES
    ensures var r := Plan(tx, t).value;
            DataFits(r.outputs)
            && ReplacementProblems(r, now, maxFee)
               == FeeProblems(r.fee, maxFee)
                  + (if Total(r.inputs) - TotalOut(Rebuilt(r.outputs)) != r.fee then [FeeMismatch] else [])
  {
    var r := Plan(tx, t).value;
    var payee := FindPayee(tx, t);
    var memo := FindMemo(tx, t);
    var built := BuiltOutputs(tx, t);
    RolesReady(tx.outputs, r, built, payee, memo);
    if memo.None? {
      SendPasses(built, payee, r.changeIndex, OwnedBy(r), r.recipient, r.fee, maxFee);
    } else {
      SwapPasses(built, payee, r.changeIndex, memo.value, OwnedBy(r), r.recipient, r.fee, r.memo.value, now, maxFee);
    }
  }

  /** With the payee's address known, only the fee can keep a bump from passing the gate. */
  lemma BumpPassesGate(tx: TxSummary, t: Terms, now: int, maxFee: int)
    requires Plan(tx, t).Ok? && WellReported(tx.outputs)
    requires Plan(tx, t).value.recipient != ""
    requires Plan(tx, t).value.memo.Some? ==> |Plan(tx, t).value.memo.value| <= OP_RETURN_MAX_BYTES
    ensures var r := Plan(tx, t).value;
            DataFits(r.outputs)
            && (ReplacementProblems(r, now, maxFee) == [] <==>
                0 <= r.fee <= maxFee && tx.fee == TotalValue(tx.inputs) - TotalValue(tx.outputs))
  {
    BumpGate(tx, t, now, maxFee);
    BumpMovesOnlyChange(tx, t);
    RebuiltTotal(Plan(tx, t).value.outputs);
  }

  // --- fresh spends ---------------------------------------------------------

  /** A built spend, with one signing key per input. */
  datatype Built = Built(outputs: seq<TxOutput>, fee: int, inputs: seq<Utxo>, keys: seq<seq<byte>>)

  /** Deriving keys by path, and the path of a coin that records none. */
  datatype Signer = Signer(keyAt: string -> seq<byte>, defaultPath: string) {
    predicate KeysFor(us: seq<Utxo>, keys: seq<seq<byte>>) {
      |keys| == |us| && forall k :: 0 <= k < |us| ==> keys[k] == keyAt(PathOf(us[k], defaultPath))
    }

    /** The input loop. */
    method KeysOf(us: seq<Utxo>) returns (keys: seq<seq<byte>>)
      ensures KeysFor(us, keys)
    {
      keys := [];
      for k := 0 to |us|
        invariant KeysFor(us[..k], keys)
      {
        keys := keys + [keyAt(PathOf(us[k], defaultPath))];
      }
      assert us[..|us|] == us;
    }
  }

  /** If each coin's address is that of the key at its own path, or at the default path, every key opens its input. */
  lemma KeysOpenInputs(signer: Signer, us: seq<Utxo>, keys: seq<seq<byte>>, addressOf: seq<byte> -> string)
    requires signer.KeysFor(us, keys)
    requires forall u :: u in us && u.path.Some? && u.path.value != "" ==>
               addressOf(signer.keyAt(u.path.value)) == u.address
    requires forall u :: u in us && (u.path == None || u.path == Some("")) ==>
               addressOf(signer.keyAt(signer.defaultPath)) == u.address
    ensures |keys| == |us| && forall k :: 0 <= k < |us| ==> addressOf(keys[k]) == us[k].address
  {
    forall k | 0 <= k < |us| ensures addressOf(keys[k]) == us[k].address {
      assert us[k] in us;
    }
  }

  /** If every owned address is that of the key at the path it is owned under, a replacement's keys open its inputs. */
  lemma ReplacementKeysOpen(tx: TxSummary, t: Terms, signer: Signer, keys: seq<seq<byte>>,
                            addressOf: seq<byte> -> string)
    requires Plan(tx, t).Ok? && signer.KeysFor(Plan(tx, t).value.inputs, keys)
    requires forall a :: a in t.owned ==> t.owned[a] != "" && addressOf(signer.keyAt(t.owned[a])) == a
    ensures |keys| == |tx.inputs|
    ensures forall k :: 0 <= k < |keys| ==>
              addressOf(keys[k]) == if tx.inputs[k].address.Some? then tx.inputs[k].address.value else ""
  {
    var us := Plan(tx, t).value.inputs;
    RespentMeans(tx, us, t.owned);
    forall k | 0 <= k < |us| ensures addressOf(keys[k]) == us[k].address {
      assert Respent1(tx.inputs[k], us[k], t.owned);
    }
  }

  /** The payment, the memo if there is one, the change if there is any. */
  function SpendOutputs(vault: string, amount: int, memo: Option<Memo>, change: int, changeAddress: string)
    : seq<TxOutput>
  {
    [TxOutput(Some(vault), amount, None)]
    + (if memo.Some? then [TxOutput(None, 0, Some(MemoBytes(memo.value)))] else [])
    + (if change > 0 then [TxOutput(Some(changeAddress), change, None)] else [])
  }

  function MemoLength(memo: Option<Memo>): nat { if memo.Some? then |MemoBytes(memo.value)| else 0 }

  /** The coins, fee and change of a spend: everything when sweeping, a selection otherwise. */
  function Fund(us: seq<Utxo>, amount: int, memoLen: nat, rate: Rate, script: ScriptParams, sweep: bool)
    : Result<Selection, string>
  {
    if sweep then
      if Total(us) - amount < 0 then Err("amount exceeds balance") else Ok(Selection(us, Total(us) - amount, 0))
    else Select(us, amount, script.dust, RateFee(rate, memoLen, script))
  }

  /** `build_unsigned_swap` of the bitcoinlib chains. */
  method BuildUnsignedSwap(us: seq<Utxo>, vault: string, amount: int, memo: Option<Memo>, rate: Rate,
                           changeAddress: string, script: ScriptParams, sweep: bool, signer: Signer)
    returns (r: Result<Built, string>)
    ensures var funded := Fund(us, amount, MemoLength(memo), rate, script, sweep);
            && (r.Ok? <==> funded.Ok? && MemoLength(memo) <= OP_RETURN_MAX_BYTES)
            && (r.Ok? ==> var s := funded.value;
                && r.value.outputs == SpendOutputs(vault, amount, memo, s.change, changeAddress)
                && r.value.fee == s.fee && r.value.inputs == s.utxos && signer.KeysFor(s.utxos, r.value.keys))
  {
    var payload := if memo.Some? then MemoBytes(memo.value) else [];
    var chosen, fee, change;
    if sweep {
      chosen, fee, change := us, Total(us) - amount, 0;
      if fee < 0 {
        return Err("amount exceeds balance");
      }
    } else {
      var sel :- SelectCoins(us, amount, script.dust, RateFee(rate, |payload|, script));
      chosen, fee, change := sel.utxos, sel.fee, sel.change;
    }
    var keys := signer.KeysOf(chosen);
    var outputs := AddOutputs(vault, amount, memo, change, changeAddress);
    SpendRebuilt(vault, amount, memo, change, changeAddress);
    var built :- BuildOutputs(outputs);
    return Ok(Built(built, fee, chosen, keys));
  }

  /** The outputs, added one by one. */
  method AddOutputs(vault: string, amount: int, memo: Option<Memo>, change: int, changeAddress: string)
    returns (outputs: seq<TxOutput>)
    ensures outputs == SpendOutputs(vault, amount, memo, change, changeAddress)
  {
    outputs := [TxOutput(Some(vault), amount, None)];
    if memo.Some? {
      outputs := outputs + [TxOutput(None, 0, Some(MemoBytes(memo.value)))];
    }
    if change > 0 {
      outputs := outputs + [TxOutput(Some(changeAddress), change, None)];
    }
  }

  /** The outputs of a spend fit when the memo does, and are read back as they were added. */
  lemma SpendRebuilt(vault: string, amount: int, memo: Option<Memo>, change: int, changeAddress: string)
    ensures var outputs := SpendOutputs(vault, amount, memo, change, changeAddress);
            (DataFits(outputs) <==> MemoLength(memo) <= OP_RETURN_MAX_BYTES) && Rebuilt(outputs) == outputs
  {
    var outputs := SpendOutputs(vault, amount, memo, change, changeAddress);
    if memo.Some? {
      assert outputs[1].opReturnData == Some(MemoBytes(memo.value));
    }
    assert Rebuilt(outputs) == outputs;
  }

  /** What is spent is the payment, the change and the fee. */
  lemma SpendConserves(us: seq<Utxo>, vault: string, amount: int, memo: Option<Memo>, rate: Rate,
                       changeAddress: string, script: ScriptParams, sweep: bool)
    requires Fund(us, amount, MemoLength(memo), rate, script, sweep).Ok? && script.dust > 0
    ensures var s := Fund(us, amount, MemoLength(memo), rate, script, sweep).value;
            Total(s.utxos) == TotalOut(SpendOutputs(vault, amount, memo, s.change, changeAddress)) + s.fee
            && s.change >= 0
  {
    var s := Fund(us, amount, MemoLength(memo), rate, script, sweep).value;
    if !sweep {
      SelectionConserves(us, amount, script.dust, RateFee(rate, MemoLength(memo), script));
    }
    var os := SpendOutputs(vault, amount, memo, s.change, changeAddress);
    ThreeOutputs(os);
  }

  /** A sweep of the advised amount takes every coin, pays the advised fee, and reaches the package rate. */
  lemma AdvisedSweepPays(us: seq<Utxo>, lookup: Lookup, rate: Rate, memo: Option<Memo>, memoLen: nat,
                         script: ScriptParams)
    requires PricedAt(us, lookup, rate) && rate.num >= 0 && script.dust >= 0 && MemoLength(memo) <= memoLen
    requires SweepAmount(Total(us), |us|, rate, memoLen, script, CpfpSurcharge(us)).Ok?
    ensures var (amount, fee) := SweepAmount(Total(us), |us|, rate, memoLen, script, CpfpSurcharge(us)).value;
            && Fund(us, amount, MemoLength(memo), rate, script, true) == Ok(Selection(us, fee, 0))
            && PackageReaches(fee, EstimateVsize(|us|, 1, MemoLength(memo), script), Pending(Parents(us), lookup), rate)
  {
    var (amount, fee) := SweepAmount(Total(us), |us|, rate, memoLen, script, CpfpSurcharge(us)).value;
    SurchargeNatural(us, lookup, rate);
    var size := EstimateVsize(|us|, 1, memoLen, script);
    AdvisedSweepFunds(us, rate, MemoLength(memo), memoLen, script, size, amount, fee);
    SweepPaysPackage(us, lookup, rate, memoLen, MemoLength(memo), script);
  }

  lemma AdvisedSweepFunds(us: seq<Utxo>, rate: Rate, carried: nat, memoLen: nat, script: ScriptParams, size: nat,
                          amount: int, fee: int)
    requires CpfpSurcharge(us) >= 0 && rate.num >= 0 && size == EstimateVsize(|us|, 1, memoLen, script)
    requires SweepAmount(Total(us), |us|, rate, memoLen, script, CpfpSurcharge(us)) == Ok((amount, fee))
    ensures Fund(us, amount, carried, rate, script, true) == Ok(Selection(us, fee, 0))
  {
    AdviceIs(us, size, rate, memoLen, script, amount, fee);
    EverythingFunds(us, amount, fee, carried, rate, script);
  }

  lemma AdviceIs(us: seq<Utxo>, size: nat, rate: Rate, memoLen: nat, script: ScriptParams, amount: int, fee: int)
    requires size == EstimateVsize(|us|, 1, memoLen, script) && rate.num >= 0 && CpfpSurcharge(us) >= 0
    requires SweepAmount(Total(us), |us|, rate, memoLen, script, CpfpSurcharge(us)) == Ok((amount, fee))
    ensures 0 <= fee == Total(us) - amount
  {
    PriceNatural(size, rate);
  }

  lemma EverythingFunds(us: seq<Utxo>, amount: int, fee: int, memoLen: nat, rate: Rate, script: ScriptParams)
    requires 0 <= fee == Total(us) - amount
    ensures Fund(us, amount, memoLen, rate, script, true) == Ok(Selection(us, fee, 0))
  {
  }

  lemma SurchargeNatural(us: seq<Utxo>, lookup: Lookup, rate: Rate)
    requires PricedAt(us, lookup, rate)
    ensures CpfpSurcharge(us) >= 0
  {
    PricedIsListed(us, lookup, rate);
    SumIsDebt(us, PriceList(lookup, rate), Parents(us));
  }

  lemma PriceNatural(size: nat, rate: Rate)
    requires rate.num >= 0
    ensures CeilAt(size, rate) >= 0
  {
    CeilAtMono(0, size, rate);
  }

  lemma ThreeOutputs(os: seq<TxOutput>)
    requires 1 <= |os| <= 3
    ensures TotalOut(os) == os[0].value + (if |os| > 1 then os[1].value else 0) + (if |os| > 2 then os[2].value else 0)
  {
    assert os[1..] == if |os| == 1 then [] else if |os| == 2 then [os[1]] else [os[1], os[2]];
    if |os| == 3 { assert os[1..][1..] == [os[2]]; }
  }

  /**
   * A freshly built deposit passes its own gate exactly when the quote is
   * live, the fee is within bounds, the memo pays the destination, and the
   * vault is not the wallet's own change address.
   */
  lemma BuiltDepositPassesGate(vault: string, amount: int, memo: Memo, change: int, changeAddress: string, fee: int,
                               expiry: int, destination: string, owned: set<string>, now: int, maxFee: int)
    requires changeAddress in owned && |MemoBytes(memo)| <= OP_RETURN_MAX_BYTES
    ensures SwapProblems(SpendOutputs(vault, amount, Some(memo), change, changeAddress), fee,
                         SwapPlan(vault, amount, memo, expiry, destination), owned, now, maxFee,
                         OP_RETURN_MAX_BYTES) == []
            <==> now < expiry && 0 <= fee <= maxFee && NamesDestination(destination, memo)
                 && (change <= 0 || vault != changeAddress)
  {
    var os := SpendOutputs(vault, amount, Some(memo), change, changeAddress);
    SwapGateMeans(os, fee, SwapPlan(vault, amount, memo, expiry, destination), owned, now, maxFee, OP_RETURN_MAX_BYTES);
    assert os[0] == TxOutput(Some(vault), amount, None) && os[1] == TxOutput(None, 0, Some(MemoBytes(memo)));
    if change <= 0 || vault != changeAddress {
      assert Deposit(os, vault, amount, MemoBytes(memo), owned, 0, 1);
    } else {
      assert os[2].address == os[0].address == Some(vault);
    }
  }

  /** A freshly built plain send passes its own gate exactly when its fee is within bounds and it pays another. */
  lemma BuiltSendPassesGate(recipient: string, amount: int, change: int, changeAddress: string, fee: int,
                            owned: set<string>, maxFee: int)
    requires changeAddress in owned
    ensures SendProblems(SpendOutputs(recipient, amount, None, change, changeAddress), fee,
                         SendPlan(recipient, amount), owned, maxFee) == []
            <==> 0 <= fee <= maxFee && (change <= 0 || recipient != changeAddress)
  {
    var os := SpendOutputs(recipient, amount, None, change, changeAddress);
    SendGateMeans(os, fee, SendPlan(recipient, amount), owned, maxFee);
    assert os[0] == TxOutput(Some(recipient), amount, None);
    if change <= 0 || recipient != changeAddress {
      assert PlainSend(os, recipient, amount, owned, 0);
    } else {
      assert os[1].address == os[0].address == Some(recipient);
    }
  }

  // --- what the wallet builds, it can bump ----------------------------------

  /** The sequence number of every input, which signals opt-in replacement. */
  const RBF_SEQUENCE: nat := 0xFFFF_FFFD

  /** An input, and an output, of a built spend as an explorer reports it. */
  function ReportedInput(u: Utxo): TxEntry {
    TxEntry(u.value, Some(u.address), false, Some(u.txid), Some(u.vout), Some(RBF_SEQUENCE), None, None)
  }

  function ReportedInputs(us: seq<Utxo>): (r: seq<TxEntry>)
    ensures |r| == |us| && forall i :: 0 <= i < |us| ==> r[i] == ReportedInput(us[i])
  {
    if us == [] then [] else [ReportedInput(us[0])] + ReportedInputs(us[1..])
  }

  function ReportedOutput(o: TxOutput): TxEntry {
    TxEntry(o.value, o.address, o.opReturnData.Some?, None, None, None, o.opReturnData, None)
  }

  function ReportedOutputs(os: seq<TxOutput>): (r: seq<TxEntry>)
    ensures |r| == |os| && forall i :: 0 <= i < |os| ==> r[i] == ReportedOutput(os[i])
  {
    seq(|os|, i requires 0 <= i < |os| => ReportedOutput(os[i]))
  }

  /** A built spend in the mempool. */
  function InMempool(txid: string, us: seq<Utxo>, os: seq<TxOutput>, fee: int, vsize: nat): TxSummary {
    TxSummary(txid, false, None, fee, vsize, ReportedInputs(us), ReportedOutputs(os))
  }

  lemma {:induction false} WhereOnly(es: seq<TxEntry>, p: (nat, TxEntry) -> bool, k: nat, i: nat)
    requires k <= i < |es| && p(i, es[i]) && forall j :: k <= j < |es| && j != i ==> !p(j, es[j])
    ensures Where(es, p, k) == [i]
    decreases |es| - k
  {
    if k < i {
      WhereOnly(es, p, k + 1, i);
    } else {
      WhereNone(es, p, k + 1);
    }
  }

  lemma {:induction false} WhereNone(es: seq<TxEntry>, p: (nat, TxEntry) -> bool, k: nat)
    requires forall j :: k <= j < |es| ==> !p(j, es[j])
    ensures Where(es, p, k) == []
    decreases |es| - k
  {
    if k < |es| { WhereNone(es, p, k + 1); }
  }

  lemma WhereTwo(es: seq<TxEntry>, p: (nat, TxEntry) -> bool, i: nat, j: nat)
    requires i < j < |es| && p(i, es[i]) && p(j, es[j])
    ensures |Where(es, p, 0)| >= 2
  {
    assert i in Where(es, p, 0) && j in Where(es, p, 0);
  }

  lemma {:induction false} RespentInputs(us: seq<Utxo>, owned: map<string, string>)
    requires forall u :: u in us ==> u.address in owned
    ensures Inputs(ReportedInputs(us), owned).Ok?
    ensures var r := Inputs(ReportedInputs(us), owned).value;
            |r| == |us| && forall i :: 0 <= i < |us| ==>
              r[i].txid == us[i].txid && r[i].vout == us[i].vout && r[i].value == us[i].value
  {
    if us != [] { RespentInputs(us[1..], owned); }
  }

  /** The vault is on the branch change goes to. */
  predicate OnOurBranch(address: string, owned: map<string, string>, prefix: string) {
    address in owned && prefix <= owned[address]
  }

  /** The last of several outputs is the change, when only the first can look like it too. */
  lemma LastIsChange(tx: TxSummary, owned: map<string, string>, prefix: string)
    requires |tx.outputs| > 1 && OnChangeBranch(tx.outputs[|tx.outputs| - 1], owned, prefix)
    requires forall i :: 0 < i < |tx.outputs| - 1 ==> !PaysUs(tx.outputs[i], owned)
    ensures ChangeIndex(tx, owned, prefix)
         == if OnChangeBranch(tx.outputs[0], owned, prefix) then Err(AmbiguousChange) else Ok(|tx.outputs| - 1)
  {
    var es, c := tx.outputs, |tx.outputs| - 1;
    if PaysUs(es[0], owned) {
      WhereTwo(es, (i: nat, o: TxEntry) => PaysUs(o, owned), 0, c);
      if OnChangeBranch(es[0], owned, prefix) {
        WhereTwo(es, (i: nat, o: TxEntry) => OnChangeBranch(o, owned, prefix), 0, c);
      } else {
        WhereOnly(es, (i: nat, o: TxEntry) => OnChangeBranch(o, owned, prefix), 0, c);
      }
    } else {
      WhereOnly(es, (i: nat, o: TxEntry) => PaysUs(o, owned), 0, c);
    }
  }

  /** Among the outputs of a spend, the last is recognised as the change, unless the vault looks like it too. */
  lemma ChangeRecognised(tx: TxSummary, vault: string, amount: int, memo: Option<Memo>, change: int,
                         changeAddress: string, owned: map<string, string>, prefix: string)
    requires tx.outputs == ReportedOutputs(SpendOutputs(vault, amount, memo, change, changeAddress))
    requires change > 0 && OnOurBranch(changeAddress, owned, prefix)
    ensures ChangeIndex(tx, owned, prefix)
         == if OnOurBranch(vault, owned, prefix) then Err(AmbiguousChange) else Ok(|tx.outputs| - 1)
  {
    LastIsChange(tx, owned, prefix);
  }

  /** Without change, a spend has no output to take a bump from, or none left for a payee. */
  lemma NothingToBump(tx: TxSummary, vault: string, amount: int, memo: Option<Memo>, change: int,
                      changeAddress: string, owned: map<string, string>, prefix: string)
    requires tx.outputs == ReportedOutputs(SpendOutputs(vault, amount, memo, change, changeAddress)) && change <= 0
    ensures ChangeIndex(tx, owned, prefix) == if vault in owned then Ok(0) else Err(NoChange)
    ensures PayeeIndex(tx, 0).Err?
  {
    var es := tx.outputs;
    assert forall i :: 0 < i < |es| ==> es[i].opReturn;
    WhereNone(es, (i: nat, o: TxEntry) => i != 0 && !o.opReturn, 0);
    if vault in owned {
      WhereOnly(es, (i: nat, o: TxEntry) => PaysUs(o, owned), 0, 0);
    } else {
      WhereNone(es, (i: nat, o: TxEntry) => PaysUs(o, owned), 0);
    }
  }

  lemma MemoRecognised(tx: TxSummary, vault: string, amount: int, memo: Option<Memo>, change: int,
                       changeAddress: string)
    requires tx.outputs == ReportedOutputs(SpendOutputs(vault, amount, memo, change, changeAddress))
    ensures MemoFound(tx) == Ok(if memo.Some? then Some(MemoBytes(memo.value)) else None)
    ensures change > 0 ==> PayeeIndex(tx, |tx.outputs| - 1) == Ok(0)
  {
    var es := tx.outputs;
    if memo.Some? {
      WhereOnly(es, (i: nat, o: TxEntry) => o.opReturn, 0, 1);
    } else {
      WhereNone(es, (i: nat, o: TxEntry) => o.opReturn, 0);
    }
    if change > 0 {
      WhereOnly(es, (i: nat, o: TxEntry) => i != |es| - 1 && !o.opReturn, 0, 0);
    }
  }

  /**
   * The shape of a spend this wallet built is accepted exactly when it has
   * change and does not pay the change branch itself: then the plan starts from
   * the very same coins, the change last, the payee first, and the memo byte
   * for byte.
   */
  lemma OwnSpendShape(txid: string, us: seq<Utxo>, vault: string, amount: int, memo: Option<Memo>, change: int,
                      changeAddress: string, fee: int, vsize: nat, owned: map<string, string>, prefix: string,
                      script: ScriptParams)
    requires us != [] && (forall u :: u in us ==> u.address in owned)
    requires change > 0 ==> OnOurBranch(changeAddress, owned, prefix)
    ensures var os := SpendOutputs(vault, amount, memo, change, changeAddress);
            var tx := InMempool(txid, us, os, fee, vsize);
            var shape, data := ShapeOf(tx, owned, prefix, script), MemoData(memo);
            && (shape.Ok? <==> change > 0 && !OnOurBranch(vault, owned, prefix))
            && (shape.Ok? ==>
                  && shape.value.changeIndex == |os| - 1 && shape.value.payee == 0 && shape.value.memo == data
                  && shape.value.replacementVsize == ReplacementVsize(tx, |us|, data, script)
                  && SameOutpoints(shape.value.inputs, us))
  {
    var tx := InMempool(txid, us, SpendOutputs(vault, amount, memo, change, changeAddress), fee, vsize);
    RespentInputs(us, owned);
    MemoRecognised(tx, vault, amount, memo, change, changeAddress);
    assert SignalsRbf(tx) by { assert tx.inputs[0] == ReportedInput(us[0]); }
    if change > 0 {
      ChangeRecognised(tx, vault, amount, memo, change, changeAddress, owned, prefix);
    } else {
      NothingToBump(tx, vault, amount, memo, change, changeAddress, owned, prefix);
    }
  }

  function MemoData(memo: Option<Memo>): Option<seq<byte>> {
    if memo.Some? then Some(MemoBytes(memo.value)) else None
  }

  ghost predicate SameOutpoints(a: seq<Utxo>, b: seq<Utxo>) {
    |a| == |b| && forall i :: 0 <= i < |a| ==> a[i].txid == b[i].txid && a[i].vout == b[i].vout
  }

  /** A bump at this rate and surcharge is planned. */
  predicate Plannable(tx: TxSummary, t: Terms, rate: Rate, extraFee: int) {
    rate.num >= 0 && extraFee >= 0 && Plan(tx, t.(rate := rate, extraFee := extraFee)).Ok?
  }

  /** With the shape accepted, some bump is plannable exactly when the change less dust pays the relay increment. */
  lemma SomePlan(tx: TxSummary, t: Terms, s: Shape)
    requires ShapeOf(tx, t.owned, t.changePrefix, t.script) == Ok(s) && tx.fee >= 0 && t.incremental.num >= 0
    ensures (exists rate: Rate, extraFee :: Plannable(tx, t, rate, extraFee)) <==>
            tx.outputs[s.changeIndex].value - t.script.dust >= CeilAt(s.replacementVsize, t.incremental)
  {
    var ceiling := Ceiling(tx, s, t.script);
    forall rate: Rate, extraFee ensures Plannable(tx, t, rate, extraFee) ==> Floor(tx, s, t) <= ceiling {
      AcceptedExactlyWhen(tx, t.(rate := rate, extraFee := extraFee));
    }
    if Floor(tx, s, t) <= ceiling {
      CeilAtMono(0, s.replacementVsize, t.incremental);
      AcceptedExactlyWhen(tx, t.(rate := Fraction(0, 1), extraFee := 0));
      assert Plannable(tx, t, Fraction(0, 1), 0);
    }
  }

  /**
   * A spend this wallet built can be bumped, at some rate and surcharge, exactly
   * when it has change, does not pay the change branch itself, and the change
   * less dust pays the relay increment on the replacement's size. Every bump
   * planned re-spends the very same coins and pays the same vault the same
   * amount with the same memo.
   */
  lemma OwnSpendCanBeBumped(txid: string, us: seq<Utxo>, vault: string, amount: int, memo: Option<Memo>, change: int,
                            changeAddress: string, fee: nat, vsize: nat, t: Terms)
    requires us != [] && (forall u :: u in us ==> u.address in t.owned) && t.incremental.num >= 0
    requires change > 0 ==> OnOurBranch(changeAddress, t.owned, t.changePrefix)
    ensures var tx := InMempool(txid, us, SpendOutputs(vault, amount, memo, change, changeAddress), fee, vsize);
            && ((exists rate: Rate, extraFee :: Plannable(tx, t, rate, extraFee)) <==>
                  && change > 0 && !OnOurBranch(vault, t.owned, t.changePrefix)
                  && change - t.script.dust
                     >= CeilAt(ReplacementVsize(tx, |us|, MemoData(memo), t.script), t.incremental))
            && (forall rate: Rate, extraFee :: Plannable(tx, t, rate, extraFee) ==>
                  var r := Plan(tx, t.(rate := rate, extraFee := extraFee)).value;
                  SameOutpoints(r.inputs, us) && r.recipient == vault && r.amount == amount && r.memo == MemoData(memo))
  {
    var tx := InMempool(txid, us, SpendOutputs(vault, amount, memo, change, changeAddress), fee, vsize);
    OwnSpendShape(txid, us, vault, amount, memo, change, changeAddress, fee, vsize, t.owned, t.changePrefix, t.script);
    var shape := ShapeOf(tx, t.owned, t.changePrefix, t.script);
    if shape.Ok? {
      SomePlan(tx, t, shape.value);
    }
  }
}
