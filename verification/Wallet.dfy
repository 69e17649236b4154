/** A wallet's history end to end: addresses found by scanning, walked on explorers, assembled into two views. */
module Wallet {
  import opened Chain
  import opened History
  import opened Ledger
  import opened Paging
  import opened PagingSafety
  import opened Scan

  /** `_scan_records`: the `(path, address)` pairs a scan found. */
  function Records(found: seq<Found>, show: Path -> string): seq<(string, string)> {
    if found == [] then []
    else
      var last := found[|found| - 1];
      Records(found[..|found| - 1], show) + [(show(last.path), last.address)]
  }

  lemma {:induction false} RecordsOwn(found: seq<Found>, show: Path -> string, f: Found)
    requires f in found
    ensures f.address in OwnedBy(Records(found, show))
  {
    var init, last := found[..|found| - 1], found[|found| - 1];
    var records := Records(found, show);
    assert records[..|records| - 1] == Records(init, show);
    if f != last {
      assert f in init;
      RecordsOwn(init, show, f);
    }
  }

  // --- what the wallet asks -------------------------------------------------

  /** The explorers as one account sees them: each address's endpoint, the list behind it, and when it is asked. */
  datatype Explorer = Explorer(host: string -> Host, lists: string -> Lists, start: string -> nat)

  /**
   * The answer for an address came from a faithful endpoint, whose list at the
   * end of the walk held exactly the ledger's transactions touching the address.
   */
  ghost predicate ServedBy(e: Explorer, a: string, answer: AddressTxs, limit: nat, ledger: seq<TxSummary>) {
    var o := AttemptsOn(e.host(a), e.start(a), limit);
    && Faithful(e.host(a), e.lists(a)) && GrowsAtFront(e.lists(a)) && (forall m: nat :: DistinctIds(e.lists(a)(m)))
    && o.Walked? && o.result == answer && o.clock > 0
    && forall t :: t in e.lists(a)(o.clock - 1) <==> t in ledger && Touches(t, a)
  }

  /** An address the ledger's transactions touch has history. */
  ghost predicate UseIsKnown(src: Source, branch: int, ledger: seq<TxSummary>) {
    forall i: nat, t :: t in ledger && Touches(t, src.At(branch, i).address) ==> src.Used(branch, i)
  }

  /** `a` is an address of the account, at any index. */
  ghost predicate AccountAddress(src: Source, branches: seq<int>, a: string) {
    exists b, i: nat :: b in branches && a == src.At(b, i).address
  }

  // --- what it gets ---------------------------------------------------------

  /** An untruncated answer is exactly the ledger's transactions touching the address. */
  lemma AnswerIsComplete(e: Explorer, a: string, answer: AddressTxs, limit: nat, ledger: seq<TxSummary>)
    requires ServedBy(e, a, answer, limit, ledger) && !answer.truncated
    ensures forall t :: t in answer.transactions <==> t in ledger && Touches(t, a)
  {
    var host, lists, start := e.host(a), e.lists(a), e.start(a);
    var o := AttemptsOn(host, start, limit);
    UntruncatedIsWhole(host, lists, start, limit);
    var s: nat :| start <= s < o.clock && StoodFrom(lists, answer.transactions, s, o.clock);
    assert lists(o.clock - 1) == answer.transactions;
  }

  lemma {:induction false} NoneTruncated(addresses: seq<string>, fetch: string -> AddressTxs)
    requires Truncated(addresses, fetch) == []
    ensures forall a :: a in addresses ==> !fetch(a).truncated
  {
    if addresses != [] {
      NoneTruncated(addresses[1..], fetch);
    }
  }

  lemma HistoriesComplete(records: seq<(string, string)>, fetch: string -> AddressTxs, e: Explorer, limit: nat,
                          ledger: seq<TxSummary>)
    requires forall a :: a in OwnedBy(records) ==> ServedBy(e, a, fetch(a), limit, ledger)
    requires Assemble(records, fetch).truncated == []
    ensures Complete(records, fetch, ledger)
  {
    NoneTruncated(Addresses(records), fetch);
    forall a | a in OwnedBy(records)
      ensures !fetch(a).truncated && forall t :: t in fetch(a).transactions <==> t in ledger && Touches(t, a)
    {
      assert a in Addresses(records);
      AnswerIsComplete(e, a, fetch(a), limit, ledger);
    }
  }

  lemma {:induction false} FoundInBranch(src: Source, branches: seq<int>, stops: seq<nat>, k: nat, f: Found)
    requires |stops| == |branches| && k < |branches| && f in src.UsedBelow(branches[k], stops[k])
    ensures f in src.AllBelow(branches, stops)
  {
    var n := |branches| - 1;
    if k < n { FoundInBranch(src, branches[..n], stops[..n], k, f); }
  }

  /** Without long gaps, every address of the account that the ledger touches is found. */
  lemma TouchedIsOwned(src: Source, gapLimit: nat, window: nat, branches: seq<int>, stops: seq<nat>,
                       show: Path -> string, ledger: seq<TxSummary>, a: string, t: TxSummary)
    requires window > 0 && |stops| == |branches|
    requires forall k :: 0 <= k < |branches| ==> src.StopsAt(branches[k], gapLimit, window, stops[k])
    requires forall b :: b in branches ==> src.Reachable(b, gapLimit) && UseIsKnown(src, b, ledger)
    requires AccountAddress(src, branches, a) && t in ledger && Touches(t, a)
    ensures a in OwnedBy(Records(src.AllBelow(branches, stops), show))
  {
    var b, i: nat :| b in branches && a == src.At(b, i).address;
    var k :| 0 <= k < |branches| && branches[k] == b;
    src.FindsAll(b, gapLimit, window, stops[k], i);
    FoundInBranch(src, branches, stops, k, src.At(b, i));
    RecordsOwn(src.AllBelow(branches, stops), show, src.At(b, i));
  }

  /**
   * The whole account: if no used address lies beyond a long gap, every found
   * address was walked on a faithful explorer, and the history names no address
   * as truncated, then its outputs view is exact, holds every output the ledger
   * ever paid to any address of the account, and the netted transactions add up
   * to what is unspent.
   */
  lemma AccountIsWhole(src: Source, gapLimit: nat, window: nat, branches: seq<int>, stops: seq<nat>,
                       show: Path -> string, fetch: string -> AddressTxs, e: Explorer, limit: nat,
                       ledger: seq<TxSummary>)
    requires window > 0 && |stops| == |branches| && WellFormed(ledger)
    requires forall k :: 0 <= k < |branches| ==> src.StopsAt(branches[k], gapLimit, window, stops[k])
    requires forall b :: b in branches ==> src.Reachable(b, gapLimit) && UseIsKnown(src, b, ledger)
    requires forall a :: a in OwnedBy(Records(src.AllBelow(branches, stops), show)) ==>
               ServedBy(e, a, fetch(a), limit, ledger)
    requires Assemble(Records(src.AllBelow(branches, stops), show), fetch).truncated == []
    ensures var records := Records(src.AllBelow(branches, stops), show);
            var h, owned := Assemble(records, fetch), OwnedBy(records);
            && Exact(h.outputs, owned, ledger)
            && (forall t, v :: t in ledger && 0 <= v < |t.outputs| && t.outputs[v].address.Some?
                               && AccountAddress(src, branches, t.outputs[v].address.value)
                  ==> Present(h.outputs, t, v, owned))
            && SumBy(h.transactions, Net) == SumBy(h.outputs, Unspent)
  {
    var records := Records(src.AllBelow(branches, stops), show);
    var h, owned := Assemble(records, fetch), OwnedBy(records);
    HistoriesComplete(records, fetch, e, limit, ledger);
    OutputsAreExact(records, fetch, ledger);
    NetEqualsUnspent(records, fetch, ledger);
    forall t, v: nat | t in ledger && v < |t.outputs| && t.outputs[v].address.Some?
                       && AccountAddress(src, branches, t.outputs[v].address.value)
      ensures Present(h.outputs, t, v, owned)
    {
      TouchedIsOwned(src, gapLimit, window, branches, stops, show, ledger, t.outputs[v].address.value, t);
    }
  }
}
