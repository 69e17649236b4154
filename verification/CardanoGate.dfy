/** Cardano spends through the wallet's gate: the memo travels as metadata and is read back as one data entry. */
module CardanoGate {
  import opened Common
  import opened CardanoAddress
  import opened CardanoRead
  import opened CardanoSelect
  import opened CardanoTx
  import opened Chain
  import opened Verify
  import Rates
  import Utf8

  /** The vault's address as it is read back. */
  function Vault(q: Request): string { q.text(q.vaultRaw) }

  /** A built spend pays the vault, then its change if there is any. */
  lemma BuiltOutputs(q: Request, p: ProtocolParams)
    requires Built(q, p).Ok?
    ensures var outs, pay := Built(q, p).value.tx.outputs, PaymentOf(q);
            outs == [pay.recipient] || exists change :: outs == [pay.recipient, Back(pay, change)]
  {
    var pay, pool, feeFor := PaymentOf(q), Pool(q.utxos), FeeOf(q, p);
    if !q.sweep {
      FeeOfGrows(q, p);
      SelectSound(pool, pay, feeFor, p);
    }
  }

  /** The vault paid the exact amount, change at the change address if `n` is two, and then the memo. */
  predicate SeenAs(os: seq<TxOutput>, n: nat, vault: string, amount: int, change: string, memo: Option<string>) {
    && 1 <= n <= 2 && |os| == n + (if memo.Some? then 1 else 0)
    && os[0] == TxOutput(Some(vault), amount, None)
    && (n == 2 ==> os[1].address == Some(change) && os[1].opReturnData.None?)
    && (memo.Some? ==> os[n] == TxOutput(None, 0, Some(Utf8.Encode(memo.value))))
  }

  /** The gate sees what was asked for, the memo byte for byte. */
  lemma SeenOutputs(q: Request, p: ProtocolParams)
    requires Built(q, p).Ok?
    ensures var b := Built(q, p).value;
            SeenAs(b.outputs, |b.tx.outputs|, Vault(q), q.amount, q.text(q.changeRaw),
                   if q.memo.TextMemo? then Some(q.memo.text) else None)
  {
    var b := Built(q, p).value;
    BuiltOutputs(q, p);
    Rates.FloorMeans(q.amount, LOVELACE_TO_UNITS);
  }

  lemma SeenPaysOnce(os: seq<TxOutput>, n: nat, vault: string, amount: int, change: string, text: string,
                     pays: TxOutput -> bool)
    requires SeenAs(os, n, vault, amount, change, Some(text)) && (n == 1 || vault != change)
    requires forall o :: pays(o) <==> o.address == Some(vault)
    ensures Only(os, pays, 0)
  {
    assert pays(os[0]) && !pays(os[n]) && (n == 2 ==> !pays(os[1]));
  }

  lemma SeenCarriesOnce(os: seq<TxOutput>, n: nat, vault: string, amount: int, change: string, text: string,
                        carries: TxOutput -> bool)
    requires SeenAs(os, n, vault, amount, change, Some(text))
    requires forall o :: carries(o) <==> o.opReturnData.Some?
    ensures Only(os, carries, n)
  {
    assert carries(os[n]) && !carries(os[0]) && (n == 2 ==> !carries(os[1]));
  }

  lemma SeenIsDeposit(os: seq<TxOutput>, n: nat, vault: string, amount: int, change: string, text: string,
                      owned: set<string>)
    requires SeenAs(os, n, vault, amount, change, Some(text)) && change in owned && (n == 1 || vault != change)
    ensures Deposit(os, vault, amount, Utf8.Encode(text), owned, 0, n)
  {
    SeenPaysOnce(os, n, vault, amount, change, text, (o: TxOutput) => o.address == Some(vault));
    SeenCarriesOnce(os, n, vault, amount, change, text, (o: TxOutput) => o.opReturnData.Some?);
  }

  lemma SelfPaymentIsNot(os: seq<TxOutput>, vault: string, amount: int, memo: seq<byte>, owned: set<string>,
                         v: nat, d: nat)
    requires |os| >= 2 && os[0].address == os[1].address == Some(vault)
    ensures !Deposit(os, vault, amount, memo, owned, v, d)
  {
  }

  lemma SeenDepositPasses(os: seq<TxOutput>, n: nat, change: string, text: string, fee: int, plan: SwapPlan,
                          owned: set<string>, now: int, maxFee: int, memoMax: nat)
    requires SeenAs(os, n, plan.inboundAddress, plan.amount, change, Some(text)) && change in owned
    requires plan.memo == Text(text)
    ensures SwapProblems(os, fee, plan, owned, now, maxFee, memoMax) == []
            <==> now < plan.expiry && 0 <= fee <= maxFee && NamesDestination(plan.destination, plan.memo)
                 && |Utf8.Encode(text)| <= memoMax && (n == 1 || plan.inboundAddress != change)
  {
    SwapGateMeans(os, fee, plan, owned, now, maxFee, memoMax);
    assert MemoBytes(plan.memo) == Utf8.Encode(text);
    if n == 1 || plan.inboundAddress != change {
      SeenIsDeposit(os, n, plan.inboundAddress, plan.amount, change, text, owned);
    } else {
      forall v, d | Deposit(os, plan.inboundAddress, plan.amount, Utf8.Encode(text), owned, v, d) ensures false {
        SelfPaymentIsNot(os, plan.inboundAddress, plan.amount, Utf8.Encode(text), owned, v, d);
      }
    }
  }

  lemma SeenSendPasses(os: seq<TxOutput>, n: nat, vault: string, amount: int, change: string, fee: int,
                       owned: set<string>, maxFee: int)
    requires SeenAs(os, n, vault, amount, change, None) && change in owned
    ensures SendProblems(os, fee, SendPlan(vault, amount), owned, maxFee) == []
            <==> 0 <= fee <= maxFee && (n == 1 || vault != change)
  {
    SendGateMeans(os, fee, SendPlan(vault, amount), owned, maxFee);
    if n == 1 || vault != change {
      assert PlainSend(os, vault, amount, owned, 0);
    } else {
      assert os[1].address == os[0].address == Some(vault);
    }
  }

  /** The vault and the change address as they were given, decoded for the builder and encoded for the gate. */
  ghost predicate Given(q: Request, vault: string, change: string) {
    && AddressBytes(vault) == Ok(q.vaultRaw) && AddressBytes(change) == Ok(q.changeRaw)
    && forall raw :: q.text(raw) == AddressString(raw)
  }

  lemma GivenIsRead(q: Request, vault: string, change: string)
    requires Given(q, vault, change)
    ensures Vault(q) == vault && q.text(q.changeRaw) == change
  {
    AddressReadsBack(vault);
    AddressReadsBack(change);
  }

  /**
   * A built ADA deposit, read back from its bytes, passes the gate exactly when
   * the quote is live, the fee is within bounds, the memo is short enough and
   * pays the destination, and the vault is not the change address.
   */
  lemma AdaDepositPassesGate(q: Request, p: ProtocolParams, vault: string, change: string, expiry: int,
                             destination: string, owned: set<string>, now: int, maxFee: int, memoMax: nat)
    requires Built(q, p).Ok? && q.memo.TextMemo? && Given(q, vault, change) && change in owned
    ensures var b, memo := Built(q, p).value, Text(q.memo.text);
            SwapProblems(b.outputs, b.fee, SwapPlan(vault, q.amount, memo, expiry, destination), owned, now, maxFee,
                         memoMax) == []
            <==> now < expiry && 0 <= b.fee <= maxFee && NamesDestination(destination, memo)
                 && |Utf8.Encode(q.memo.text)| <= memoMax && (|b.tx.outputs| == 1 || vault != change)
  {
    var b := Built(q, p).value;
    SeenOutputs(q, p);
    GivenIsRead(q, vault, change);
    var plan := SwapPlan(vault, q.amount, Text(q.memo.text), expiry, destination);
    SeenDepositPasses(b.outputs, |b.tx.outputs|, change, q.memo.text, b.fee, plan, owned, now, maxFee, memoMax);
  }

  /** The same for a plain send. */
  lemma AdaSendPassesGate(q: Request, p: ProtocolParams, recipient: string, change: string, owned: set<string>,
                          maxFee: int)
    requires Built(q, p).Ok? && q.memo == NoMemo && Given(q, recipient, change) && change in owned
    ensures var b := Built(q, p).value;
            SendProblems(b.outputs, b.fee, SendPlan(recipient, q.amount), owned, maxFee) == []
            <==> 0 <= b.fee <= maxFee && (|b.tx.outputs| == 1 || recipient != change)
  {
    var b := Built(q, p).value;
    SeenOutputs(q, p);
    GivenIsRead(q, recipient, change);
    SeenSendPasses(b.outputs, |b.tx.outputs|, recipient, q.amount, change, b.fee, owned, maxFee);
  }
}
