/** Zcash spends through the wallet's gate: what is built and read back from its bytes is what was asked for. */
module ZcashGate {
  import opened Common
  import opened Verify
  import opened Zip317
  import UtxoBuilder
  import Coins

  /** `canonical_address`: the form in which an address is read back from its own script. */
  ghost predicate Canonical(d: Decoder, canonical: string -> string) {
    forall a :: d.script(a).Some? ==> d.address(d.script(a).value) == Some(canonical(a))
  }

  /** The gate sees the outputs of the bitcoinlib builder, under canonical addresses. */
  lemma SeenAsSpent(d: Decoder, q: Request, canonical: string -> string, memo: Option<Memo>, change: int)
    requires Standard(d) && Canonical(d, canonical) && Outputs(d, q, change).Ok?
    requires q.memo == if memo.Some? then Some(MemoBytes(memo.value)) else None
    ensures Views(d, Outputs(d, q, change).value)
         == Ok(UtxoBuilder.SpendOutputs(canonical(q.vault), q.amount, memo, change, canonical(q.changeAddress)))
  {
    ViewsOfOutputs(d, q, change);
  }

  /**
   * A built Zcash deposit, read back from its bytes, passes the gate exactly when
   * the quote is live, the fee is within bounds, the memo pays the destination,
   * and the vault is not the change address, in whichever form either was given.
   */
  lemma ZecDepositPassesGate(d: Decoder, q: Request, canonical: string -> string, memo: Memo, expiry: int,
                             destination: string, owned: set<string>, now: int, maxFee: int)
    requires Standard(d) && Canonical(d, canonical) && Unsigned(d, q).Ok? && q.memo == Some(MemoBytes(memo))
    requires canonical(q.changeAddress) == q.changeAddress && q.changeAddress in owned
    ensures var s := Funding(q).value;
            var seen := Views(d, Unsigned(d, q).value.outputs);
            && seen.Ok?
            && (SwapProblems(seen.value, s.fee, SwapPlan(canonical(q.vault), q.amount, memo, expiry, destination),
                             owned, now, maxFee, Coins.OP_RETURN_MAX_BYTES) == []
                <==> now < expiry && 0 <= s.fee <= maxFee && NamesDestination(destination, memo)
                     && (s.change <= 0 || canonical(q.vault) != q.changeAddress))
  {
    var s := Funding(q).value;
    SeenAsSpent(d, q, canonical, Some(memo), s.change);
    MemoFits(d, q);
    UtxoBuilder.BuiltDepositPassesGate(canonical(q.vault), q.amount, memo, s.change, q.changeAddress, s.fee, expiry,
                                       destination, owned, now, maxFee);
  }

  lemma MemoFits(d: Decoder, q: Request)
    requires Unsigned(d, q).Ok? && q.memo.Some?
    ensures |q.memo.value| <= Coins.OP_RETURN_MAX_BYTES
  {
    Coins.OpReturnRoundTrip(Payload(q.memo));
  }

  /** The same for a plain send. */
  lemma ZecSendPassesGate(d: Decoder, q: Request, canonical: string -> string, owned: set<string>, maxFee: int)
    requires Standard(d) && Canonical(d, canonical) && Unsigned(d, q).Ok? && q.memo == None
    requires canonical(q.changeAddress) == q.changeAddress && q.changeAddress in owned
    ensures var s := Funding(q).value;
            var seen := Views(d, Unsigned(d, q).value.outputs);
            && seen.Ok?
            && (SendProblems(seen.value, s.fee, SendPlan(canonical(q.vault), q.amount), owned, maxFee) == []
                <==> 0 <= s.fee <= maxFee && (s.change <= 0 || canonical(q.vault) != q.changeAddress))
  {
    var s := Funding(q).value;
    SeenAsSpent(d, q, canonical, None, s.change);
    UtxoBuilder.BuiltSendPassesGate(canonical(q.vault), q.amount, s.change, q.changeAddress, s.fee, owned, maxFee);
  }
}
