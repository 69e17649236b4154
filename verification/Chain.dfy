/** The chain-neutral transaction model every explorer's answer is read into. */
module Chain {
  import opened Common

  datatype TxEntry = TxEntry(value: int, address: Option<string>, opReturn: bool,
                             txid: Option<string>, vout: Option<nat>, sequence: Option<nat>,
                             opReturnData: Option<seq<byte>>, spentBy: Option<string>)

  datatype TxSummary = TxSummary(txid: string, confirmed: bool, blockHeight: Option<int>, fee: int, vsize: nat,
                                 inputs: seq<TxEntry>, outputs: seq<TxEntry>)

  function TotalValue(es: seq<TxEntry>): int {
    if es == [] then 0 else es[0].value + TotalValue(es[1..])
  }

  /** `address or ""`. */
  function OrEmpty(a: Option<string>): string { if a.Some? then a.value else "" }

  const RBF_SEQUENCE_MAX := 0xFFFF_FFFE

  /** BIP125 opt-in: some input's sequence is known and below the boundary. */
  predicate SignalsRbf(tx: TxSummary) {
    exists i :: 0 <= i < |tx.inputs| && tx.inputs[i].sequence.Some? && tx.inputs[i].sequence.value < RBF_SEQUENCE_MAX
  }

  /** One output as the verify gate sees it: data outputs have no address. */
  datatype TxOutput = TxOutput(address: Option<string>, value: int, opReturnData: Option<seq<byte>>)

  function TotalOut(os: seq<TxOutput>): int {
    if os == [] then 0 else os[0].value + TotalOut(os[1..])
  }

  /** One address's transactions, and whether the source cut them short. */
  datatype AddressTxs = AddressTxs(transactions: seq<TxSummary>, truncated: bool)

  ghost predicate DistinctIds(txs: seq<TxSummary>) {
    forall i, j :: 0 <= i < j < |txs| ==> txs[i].txid != txs[j].txid
  }
}
