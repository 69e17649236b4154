/** What each field of a listed transaction says, and in what order the listing comes. */
module HistoryFields {
  import opened Chain
  import opened Common
  import opened History
  import opened Ledger
  import opened Sorting

  // --- the memo and the counterparties --------------------------------------

  /** A data output whose payload was read and is not empty. */
  ghost predicate Carries(e: TxEntry, data: seq<byte>) {
    e.opReturn == true && e.opReturnData == Some(data) && |data| > 0
  }

  /** The memo is the first such payload, and there is none exactly when there is no such output. */
  lemma {:induction false} MemoMeans(es: seq<TxEntry>, data: seq<byte>)
    ensures MemoOf(es) == Some(data)
            <==> exists i :: 0 <= i < |es| && Carries(es[i], data)
                             && forall j, other :: 0 <= j < i ==> !Carries(es[j], other)
    ensures MemoOf(es) == None <==> forall i, other :: 0 <= i < |es| ==> !Carries(es[i], other)
  {
    if es != [] {
      var rest := es[1..];
      MemoMeans(rest, data);
      assert es == [es[0]] + rest;
      var first := es[0].opReturn && es[0].opReturnData.Some? && es[0].opReturnData.value != [];
      if first {
        assert Carries(es[0], es[0].opReturnData.value);
      } else {
        assert forall other :: !Carries(es[0], other);
        MemoLater(es, rest, data);
      }
    }
  }

  lemma MemoLater(es: seq<TxEntry>, rest: seq<TxEntry>, data: seq<byte>)
    requires es != [] && rest == es[1..] && forall other :: !Carries(es[0], other)
    ensures (exists i :: 0 <= i < |es| && Carries(es[i], data)
                         && forall j, other :: 0 <= j < i ==> !Carries(es[j], other))
            <==> (exists i :: 0 <= i < |rest| && Carries(rest[i], data)
                              && forall j, other :: 0 <= j < i ==> !Carries(rest[j], other))
    ensures (forall i, other :: 0 <= i < |es| ==> !Carries(es[i], other))
            <==> (forall i, other :: 0 <= i < |rest| ==> !Carries(rest[i], other))
  {
    if i :| 0 <= i < |es| && Carries(es[i], data) && forall j, other :: 0 <= j < i ==> !Carries(es[j], other) {
      assert Carries(rest[i - 1], data);
      forall j, other | 0 <= j < i - 1 ensures !Carries(rest[j], other) { assert rest[j] == es[j + 1]; }
    }
    if i :| 0 <= i < |rest| && Carries(rest[i], data) && forall j, other :: 0 <= j < i ==> !Carries(rest[j], other) {
      assert Carries(es[i + 1], data);
      forall j, other | 0 <= j < i + 1 ensures !Carries(es[j], other) {
        if j > 0 { assert rest[j - 1] == es[j]; }
      }
    }
    if forall i, other :: 0 <= i < |rest| ==> !Carries(rest[i], other) {
      forall i, other | 0 <= i < |es| ensures !Carries(es[i], other) {
        if i > 0 { assert rest[i - 1] == es[i]; }
      }
    }
    if forall i, other :: 0 <= i < |es| ==> !Carries(es[i], other) {
      forall i, other | 0 <= i < |rest| ensures !Carries(rest[i], other) { assert rest[i] == es[i + 1]; }
    }
  }

  /** `a` is paid by some output up to `k`, and is not empty and not ours. */
  ghost predicate PaidBy(es: seq<TxEntry>, k: nat, a: string, owned: Owned) {
    a != "" && a !in owned && exists i :: 0 <= i < k && i < |es| && es[i].address == Some(a)
  }

  /** Some first outputs pay `a` and not `b`. */
  ghost predicate Earlier(es: seq<TxEntry>, a: string, b: string, owned: Owned) {
    exists k: nat :: PaidBy(es, k, a, owned) && !PaidBy(es, k, b, owned)
  }

  /** Every foreign address paid, each once, in the order of their first outputs. */
  lemma {:induction false} CounterpartiesMean(es: seq<TxEntry>, owned: Owned)
    ensures var r := Counterparties(es, owned);
            && NoDup(r)
            && (forall a :: a in r <==> PaidBy(es, |es|, a, owned))
            && (forall i, j :: 0 <= i < j < |r| ==> Earlier(es, r[i], r[j], owned))
  {
    if es != [] {
      var init, e := es[..|es| - 1], es[|es| - 1];
      CounterpartiesMean(init, owned);
      assert es == init + [e];
      var before, r := Counterparties(init, owned), Counterparties(es, owned);
      forall a ensures a in r <==> PaidBy(es, |es|, a, owned) {
        PaidLater(init, e, a, owned);
      }
      forall i, j | 0 <= i < j < |r| ensures Earlier(es, r[i], r[j], owned) {
        if j < |before| {
          assert Earlier(init, before[i], before[j], owned);
          var k: nat :| PaidBy(init, k, r[i], owned) && !PaidBy(init, k, r[j], owned);
          PaidSame(init, e, k, r[i], r[j], owned);
        } else {
          assert r[i] in before && r[j] !in before;
          PaidSame(init, e, |init|, r[i], r[j], owned);
        }
      }
    }
  }

  lemma PaidLater(init: seq<TxEntry>, e: TxEntry, a: string, owned: Owned)
    ensures var es := init + [e];
            PaidBy(es, |es|, a, owned) <==> PaidBy(init, |init|, a, owned)
                                            || (a != "" && a !in owned && e.address == Some(a))
  {
    var es := init + [e];
    if i :| 0 <= i < |init| && init[i].address == Some(a) { assert es[i].address == Some(a); }
    if e.address == Some(a) { assert es[|init|].address == Some(a); }
  }

  /** What the first outputs pay is not changed by one more output. */
  lemma PaidSame(init: seq<TxEntry>, e: TxEntry, k: nat, a: string, b: string, owned: Owned)
    requires PaidBy(init, k, a, owned) && !PaidBy(init, k, b, owned)
    ensures var es, at := init + [e], if k <= |init| then k else |init|;
            PaidBy(es, at, a, owned) && !PaidBy(es, at, b, owned)
  {
    var es, at := init + [e], if k <= |init| then k else |init|;
    var i :| 0 <= i < k && i < |init| && init[i].address == Some(a);
    assert es[i].address == Some(a);
    if PaidBy(es, at, b, owned) { PaidBefore(init, e, at, k, b, owned); }
  }

  lemma PaidBefore(init: seq<TxEntry>, e: TxEntry, at: nat, k: nat, b: string, owned: Owned)
    requires at <= |init| && at <= k && PaidBy(init + [e], at, b, owned)
    ensures PaidBy(init, k, b, owned)
  {
    var es := init + [e];
    var j :| 0 <= j < at && j < |es| && es[j].address == Some(b);
    assert init[j].address == Some(b);
  }

  // --- the amounts ----------------------------------------------------------

  /** What entries move to or from us: nothing if there are none, and one more's value if its address is ours. */
  lemma {:induction false} ReceivedMore(es: seq<TxEntry>, e: TxEntry, owned: Owned)
    ensures Received([], owned) == 0
    ensures Received(es + [e], owned)
         == Received(es, owned) + if e.address.Some? && e.address.value in owned then e.value else 0
  {
    if es == [] {
      assert es + [e] == [e] && [e][1..] == [];
    } else {
      ReceivedMore(es[1..], e, owned);
      assert (es + [e])[1..] == es[1..] + [e];
    }
  }

  // --- the listing ----------------------------------------------------------

  /** A listed transaction, field by field. */
  ghost predicate Lists(t: WalletTx, tx: TxSummary, owned: Owned) {
    && t.txid == tx.txid && t.confirmed == tx.confirmed && t.blockHeight == tx.blockHeight && t.fee == tx.fee
    && t.received == Received(tx.outputs, owned) && t.sent == Received(tx.inputs, owned)
    && (t.hasOpReturn <==> exists i :: 0 <= i < |tx.outputs| && tx.outputs[i].opReturn)
    && t.memo == MemoOf(tx.outputs) && t.counterparties == Counterparties(tx.outputs, owned)
  }

  lemma {:induction false} NetAllLists(txs: seq<TxSummary>, owned: Owned)
    ensures |NetAll(txs, owned)| == |txs| && forall k :: 0 <= k < |txs| ==> Lists(NetAll(txs, owned)[k], txs[k], owned)
  {
    if txs != [] { NetAllLists(txs[1..], owned); }
  }

  /** The listing is that of the transactions fetched, each once, in some order. */
  lemma ListingMeans(records: seq<(string, string)>, fetch: string -> AddressTxs) returns (listed: seq<WalletTx>)
    ensures var txs := MergeAll([], Fetched(Addresses(records), fetch));
            && |listed| == |txs| && forall k :: 0 <= k < |txs| ==> Lists(listed[k], txs[k], OwnedBy(records))
    ensures multiset(Assemble(records, fetch).transactions) == multiset(listed)
  {
    var txs := MergeAll([], Fetched(Addresses(records), fetch));
    listed := NetAll(txs, OwnedBy(records));
    NetAllLists(txs, OwnedBy(records));
    SortMultiset(listed, TxBefore);
    if Addresses(records) == [] { assert Fetched(Addresses(records), fetch) == []; }
  }

  /**
   * Newest first: nothing confirmed comes before anything unconfirmed, and no
   * block before a later one; a height that is not known counts as 0.
   */
  lemma NewestFirst(records: seq<(string, string)>, fetch: string -> AddressTxs)
    ensures var h := Assemble(records, fetch);
            && (forall i, j :: 0 <= i < j < |h.transactions| && h.transactions[i].confirmed ==>
                  h.transactions[j].confirmed
                  && Height(h.transactions[i].blockHeight) >= Height(h.transactions[j].blockHeight))
            && (forall i, j :: 0 <= i < j < |h.outputs| && h.outputs[i].confirmed ==>
                  h.outputs[j].confirmed && Height(h.outputs[i].blockHeight) >= Height(h.outputs[j].blockHeight))
  {
    InOrder(records, fetch);
    var h := Assemble(records, fetch);
    forall i, j | 0 <= i < j < |h.transactions| ensures TxBefore(h.transactions[i], h.transactions[j]) {}
    forall i, j | 0 <= i < j < |h.outputs| ensures OutputBefore(h.outputs[i], h.outputs[j]) {}
  }

  function Height(h: Option<int>): int { if h.Some? then h.value else 0 }
}
