/** Assembling a wallet's history from its addresses' transactions. */
module History {
  import opened Common
  import opened Chain
  import opened Sorting

  datatype Output = Output(txid: string, vout: nat, value: int, address: string, path: string,
                           confirmed: bool, blockHeight: Option<int>, spentBy: Option<string>)

  datatype WalletTx = WalletTx(txid: string, confirmed: bool, blockHeight: Option<int>, fee: int,
                               received: int, sent: int, hasOpReturn: bool, memo: Option<seq<byte>>,
                               counterparties: seq<string>)

  datatype History = History(transactions: seq<WalletTx>, outputs: seq<Output>, truncated: seq<string>)

  type Outpoint = (string, nat)
  type Owned = map<string, string>

  function Net(tx: WalletTx): int { tx.received - tx.sent }

  function Unspent(o: Output): int { if o.spentBy.None? then o.value else 0 }

  function SumBy<T>(s: seq<T>, f: T -> int): int {
    if s == [] then 0 else f(s[0]) + SumBy(s[1..], f)
  }

  // --- what each step computes ----------------------------------------------

  /** `{address: path for path, address in records}`: the last record of an address wins. */
  function OwnedBy(records: seq<(string, string)>): Owned {
    if records == [] then map[]
    else var r := records[|records| - 1]; OwnedBy(records[..|records| - 1])[r.1 := r.0]
  }

  /** The dictionary's keys in insertion order. */
  function Addresses(records: seq<(string, string)>): (r: seq<string>)
    ensures forall a :: a in r <==> a in OwnedBy(records)
    ensures NoDup(r)
  {
    if records == [] then []
    else
      var init, a := Addresses(records[..|records| - 1]), records[|records| - 1].1;
      if a in init then init else init + [a]
  }

  predicate Pays(e: TxEntry, owned: Owned) { e.address.Some? && e.address.value in owned }

  predicate Known(txid: string, txs: seq<TxSummary>) {
    exists i :: 0 <= i < |txs| && txs[i].txid == txid
  }

  /** `txs.setdefault(tx.txid, tx)` for every transaction. */
  function Merge(txs: seq<TxSummary>, more: seq<TxSummary>): seq<TxSummary>
    decreases |more|
  {
    if more == [] then txs
    else Merge(if Known(more[0].txid, txs) then txs else txs + [more[0]], more[1..])
  }

  function MergeAll(txs: seq<TxSummary>, batches: seq<AddressTxs>): seq<TxSummary>
    decreases |batches|
  {
    if batches == [] then txs else MergeAll(Merge(txs, batches[0].transactions), batches[1..])
  }

  /** The outpoint an input names, if it names one. */
  function Spends(e: TxEntry): Option<Outpoint> {
    if e.txid.Some? && e.vout.Some? then Some((e.txid.value, e.vout.value)) else None
  }

  function AddSpends(m: map<Outpoint, string>, es: seq<TxEntry>, txid: string): map<Outpoint, string>
    decreases |es|
  {
    if es == [] then m
    else AddSpends(if Spends(es[0]).Some? then m[Spends(es[0]).value := txid] else m, es[1..], txid)
  }

  function Spenders(m: map<Outpoint, string>, txs: seq<TxSummary>): map<Outpoint, string>
    decreases |txs|
  {
    if txs == [] then m else Spenders(AddSpends(m, txs[0].inputs, txs[0].txid), txs[1..])
  }

  function Received(es: seq<TxEntry>, owned: Owned): int {
    if es == [] then 0 else (if Pays(es[0], owned) then es[0].value else 0) + Received(es[1..], owned)
  }

  /** The first OP_RETURN payload that decoded to something. */
  function MemoOf(es: seq<TxEntry>): Option<seq<byte>> {
    if es == [] then None
    else if es[0].opReturn && es[0].opReturnData.Some? && es[0].opReturnData.value != [] then es[0].opReturnData
    else MemoOf(es[1..])
  }

  /** Distinct output addresses that are not ours, in order. */
  function Counterparties(es: seq<TxEntry>, owned: Owned): seq<string> {
    if es == [] then []
    else
      var init, e := Counterparties(es[..|es| - 1], owned), es[|es| - 1];
      if e.address.Some? && e.address.value != "" && e.address.value !in owned && e.address.value !in init
      then init + [e.address.value] else init
  }

  function NetTx(tx: TxSummary, owned: Owned): WalletTx {
    WalletTx(tx.txid, tx.confirmed, tx.blockHeight, tx.fee, Received(tx.outputs, owned), Received(tx.inputs, owned),
             exists i :: 0 <= i < |tx.outputs| && tx.outputs[i].opReturn, MemoOf(tx.outputs),
             Counterparties(tx.outputs, owned))
  }

  /** `out.spent_by or spenders.get(outpoint)`. */
  function SpentBy(e: TxEntry, at: Outpoint, spenders: map<Outpoint, string>): Option<string> {
    if e.spentBy.Some? && e.spentBy.value != "" then e.spentBy
    else if at in spenders then Some(spenders[at]) else None
  }

  function MakeOutput(tx: TxSummary, v: nat, owned: Owned, spenders: map<Outpoint, string>): Output
    requires v < |tx.outputs| && Pays(tx.outputs[v], owned)
  {
    var e := tx.outputs[v];
    Output(tx.txid, v, e.value, e.address.value, owned[e.address.value], tx.confirmed, tx.blockHeight,
           SpentBy(e, (tx.txid, v), spenders))
  }

  /** The outputs of `tx` from index `v` on that pay us. */
  function TxOutputs(tx: TxSummary, v: nat, owned: Owned, spenders: map<Outpoint, string>): seq<Output>
    decreases |tx.outputs| - v
  {
    if v >= |tx.outputs| then []
    else (if Pays(tx.outputs[v], owned) then [MakeOutput(tx, v, owned, spenders)] else [])
         + TxOutputs(tx, v + 1, owned, spenders)
  }

  function AllOutputs(txs: seq<TxSummary>, owned: Owned, spenders: map<Outpoint, string>): seq<Output> {
    if txs == [] then [] else TxOutputs(txs[0], 0, owned, spenders) + AllOutputs(txs[1..], owned, spenders)
  }

  function NetAll(txs: seq<TxSummary>, owned: Owned): seq<WalletTx> {
    if txs == [] then [] else [NetTx(txs[0], owned)] + NetAll(txs[1..], owned)
  }

  /** Mempool first, then newest block first. */
  predicate Newer(confirmedA: bool, heightA: Option<int>, confirmedB: bool, heightB: Option<int>) {
    if !confirmedA then true
    else confirmedB && (if heightA.Some? then heightA.value else 0) >= (if heightB.Some? then heightB.value else 0)
  }

  predicate TxBefore(a: WalletTx, b: WalletTx) { Newer(a.confirmed, a.blockHeight, b.confirmed, b.blockHeight) }

  predicate OutputBefore(a: Output, b: Output) { Newer(a.confirmed, a.blockHeight, b.confirmed, b.blockHeight) }

  function Fetched(addresses: seq<string>, fetch: string -> AddressTxs): (r: seq<AddressTxs>)
    ensures |r| == |addresses| && forall i :: 0 <= i < |addresses| ==> r[i] == fetch(addresses[i])
  {
    seq(|addresses|, i requires 0 <= i < |addresses| => fetch(addresses[i]))
  }

  function Truncated(addresses: seq<string>, fetch: string -> AddressTxs): seq<string> {
    if addresses == [] then []
    else (if fetch(addresses[0]).truncated then [addresses[0]] else []) + Truncated(addresses[1..], fetch)
  }

  /** The whole assembly. */
  function Assemble(records: seq<(string, string)>, fetch: string -> AddressTxs): History {
    var owned, addresses := OwnedBy(records), Addresses(records);
    if addresses == [] then History([], [], [])
    else
      var txs := MergeAll([], Fetched(addresses, fetch));
      History(Sort(NetAll(txs, owned), TxBefore),
              Sort(AllOutputs(txs, owned, Spenders(map[], txs)), OutputBefore),
              Truncated(addresses, fetch))
  }

  // --- the loops ------------------------------------------------------------

  method MergeBatches(batches: seq<AddressTxs>) returns (txs: seq<TxSummary>)
    ensures txs == MergeAll([], batches)
  {
    txs := [];
    for b := 0 to |batches|
      invariant MergeAll(txs, batches[b..]) == MergeAll([], batches)
    {
      assert batches[b..][0] == batches[b] && batches[b..][1..] == batches[b + 1..];
      var batch := batches[b].transactions;
      ghost var before := txs;
      assert batch[0..] == batch;
      for k := 0 to |batch|
        invariant Merge(txs, batch[k..]) == Merge(before, batch)
      {
        assert batch[k..][0] == batch[k] && batch[k..][1..] == batch[k + 1..];
        if !Known(batch[k].txid, txs) {
          txs := txs + [batch[k]];
        }
      }
    }
  }

  method CollectSpenders(txs: seq<TxSummary>) returns (m: map<Outpoint, string>)
    ensures m == Spenders(map[], txs)
  {
    m := map[];
    assert txs[0..] == txs;
    for t := 0 to |txs|
      invariant Spenders(m, txs[t..]) == Spenders(map[], txs)
    {
      assert txs[t..][0] == txs[t] && txs[t..][1..] == txs[t + 1..];
      var es := txs[t].inputs;
      ghost var before := m;
      assert es[0..] == es;
      for k := 0 to |es|
        invariant AddSpends(m, es[k..], txs[t].txid) == AddSpends(before, es, txs[t].txid)
      {
        assert es[k..][0] == es[k] && es[k..][1..] == es[k + 1..];
        if es[k].txid.Some? && es[k].vout.Some? {
          m := m[(es[k].txid.value, es[k].vout.value) := txs[t].txid];
        }
      }
    }
  }

  /** The inner loop over one transaction's outputs. */
  method OutputsPayingUs(tx: TxSummary, owned: Owned, spenders: map<Outpoint, string>, before: seq<Output>)
    returns (outputs: seq<Output>)
    ensures outputs == before + TxOutputs(tx, 0, owned, spenders)
  {
    outputs := before;
    for v := 0 to |tx.outputs|
      invariant outputs + TxOutputs(tx, v, owned, spenders) == before + TxOutputs(tx, 0, owned, spenders)
    {
      var out := tx.outputs[v];
      ghost var rest := TxOutputs(tx, v + 1, owned, spenders);
      if out.address.None? || out.address.value !in owned {
        assert [] + rest == rest;
        continue;
      }
      var o := Output(tx.txid, v, out.value, out.address.value, owned[out.address.value], tx.confirmed,
                      tx.blockHeight, SpentBy(out, (tx.txid, v), spenders));
      assert outputs + ([o] + rest) == (outputs + [o]) + rest;
      outputs := outputs + [o];
    }
    assert outputs + [] == outputs;
  }

  lemma NetAllStep(txs: seq<TxSummary>, t: nat, owned: Owned, spenders: map<Outpoint, string>)
    requires t < |txs|
    ensures NetAll(txs[t..], owned) == [NetTx(txs[t], owned)] + NetAll(txs[t + 1..], owned)
    ensures AllOutputs(txs[t..], owned, spenders)
         == TxOutputs(txs[t], 0, owned, spenders) + AllOutputs(txs[t + 1..], owned, spenders)
  {
    assert txs[t..][0] == txs[t] && txs[t..][1..] == txs[t + 1..];
  }

  method NetAndList(txs: seq<TxSummary>, owned: Owned, spenders: map<Outpoint, string>)
    returns (transactions: seq<WalletTx>, outputs: seq<Output>)
    ensures transactions == NetAll(txs, owned)
    ensures outputs == AllOutputs(txs, owned, spenders)
  {
    transactions, outputs := [], [];
    assert txs[0..] == txs;
    for t := 0 to |txs|
      invariant transactions + NetAll(txs[t..], owned) == NetAll(txs, owned)
      invariant outputs + AllOutputs(txs[t..], owned, spenders) == AllOutputs(txs, owned, spenders)
    {
      NetAllStep(txs, t, owned, spenders);
      var tx := NetTx(txs[t], owned);
      Assoc(transactions, [tx], NetAll(txs[t + 1..], owned));
      Assoc(outputs, TxOutputs(txs[t], 0, owned, spenders), AllOutputs(txs[t + 1..], owned, spenders));
      transactions := transactions + [tx];
      outputs := OutputsPayingUs(txs[t], owned, spenders, outputs);
    }
    assert transactions + [] == transactions && outputs + [] == outputs;
  }

  /** `wallet_history`. */
  method WalletHistory(records: seq<(string, string)>, fetch: string -> AddressTxs) returns (h: History)
    ensures h == Assemble(records, fetch)
  {
    var owned, addresses := OwnedBy(records), Addresses(records);
    if addresses == [] {
      return History([], [], []);
    }
    var txs := MergeBatches(Fetched(addresses, fetch));
    var spenders := CollectSpenders(txs);
    var transactions, outputs := NetAndList(txs, owned, spenders);
    return History(Sort(transactions, TxBefore), Sort(outputs, OutputBefore), Truncated(addresses, fetch));
  }
}
