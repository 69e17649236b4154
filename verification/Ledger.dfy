/** What the assembled history says about the ledger behind it. */
module Ledger {
  import opened Common
  import opened Chain
  import opened Sorting
  import opened History

  // --- ledgers and complete address histories -------------------------------

  predicate SpendsAt(s: TxSummary, j: nat, at: Outpoint) {
    j < |s.inputs| && Spends(s.inputs[j]) == Some(at)
  }

  /** Transaction `t` has output `v`, with this address and value. */
  predicate HasOutput(t: TxSummary, v: nat, address: Option<string>, value: int) {
    v < |t.outputs| && t.outputs[v].address == address && t.outputs[v].value == value
  }

  /** `spender` is the id of a transaction spending the outpoint. */
  ghost predicate SpentIn(ledger: seq<TxSummary>, at: Outpoint, spender: string) {
    exists s, j :: s in ledger && SpendsAt(s, j, at) && s.txid == spender
  }

  ghost predicate Resolved(ledger: seq<TxSummary>, e: TxEntry) {
    match Spends(e)
    case None => e.address.None?
    case Some((txid, v)) => exists t :: t in ledger && t.txid == txid && HasOutput(t, v, e.address, e.value)
  }

  /**
   * Transaction ids are unique, no output is spent twice, every input repeats
   * the address and value of the output it spends, and a spender the source
   * reports itself is a real one.
   */
  ghost predicate WellFormed(ledger: seq<TxSummary>) {
    && (forall s, t :: s in ledger && t in ledger && s.txid == t.txid ==> s == t)
    && (forall s, t, j, k, at :: s in ledger && t in ledger && SpendsAt(s, j, at) && SpendsAt(t, k, at)
          ==> s == t && j == k)
    && (forall s, j :: s in ledger && 0 <= j < |s.inputs| ==> Resolved(ledger, s.inputs[j]))
    && (forall t, v :: t in ledger && 0 <= v < |t.outputs|
                       && t.outputs[v].spentBy.Some? && t.outputs[v].spentBy.value != ""
          ==> SpentIn(ledger, (t.txid, v), t.outputs[v].spentBy.value))
  }

  predicate Touches(t: TxSummary, a: string) {
    (exists i :: 0 <= i < |t.inputs| && t.inputs[i].address == Some(a))
    || exists i :: 0 <= i < |t.outputs| && t.outputs[i].address == Some(a)
  }

  predicate TouchesOwned(t: TxSummary, owned: Owned) {
    (exists i :: 0 <= i < |t.inputs| && Pays(t.inputs[i], owned))
    || exists i :: 0 <= i < |t.outputs| && Pays(t.outputs[i], owned)
  }

  /** Every owned address's history is untruncated and holds exactly the transactions touching it. */
  ghost predicate Complete(records: seq<(string, string)>, fetch: string -> AddressTxs, ledger: seq<TxSummary>) {
    forall a :: a in OwnedBy(records) ==>
      !fetch(a).truncated && forall t :: t in fetch(a).transactions <==> t in ledger && Touches(t, a)
  }

  // --- merging --------------------------------------------------------------

  lemma {:induction false} MergeFacts(txs: seq<TxSummary>, more: seq<TxSummary>)
    requires DistinctIds(txs)
    ensures Merged(txs, more, Merge(txs, more))
    decreases |more|
  {
    if more != [] {
      var next := if Known(more[0].txid, txs) then txs else txs + [more[0]];
      AddOne(txs, more[0]);
      MergeFacts(next, more[1..]);
      MergedStep(txs, more, next, Merge(next, more[1..]));
    }
  }

  /** `r` begins with `txs`, adds only transactions of `more`, knows all of those, and has distinct ids. */
  ghost predicate Merged(txs: seq<TxSummary>, more: seq<TxSummary>, r: seq<TxSummary>) {
    && DistinctIds(r) && txs <= r && (forall t :: t in r ==> t in txs || t in more)
    && forall t :: t in more ==> Known(t.txid, r)
  }

  lemma MergedStep(txs: seq<TxSummary>, more: seq<TxSummary>, next: seq<TxSummary>, r: seq<TxSummary>)
    requires more != [] && txs <= next && Known(more[0].txid, next) && Merged(next, more[1..], r)
    requires forall s :: s in next ==> s in txs || s == more[0]
    ensures Merged(txs, more, r)
  {
    KnownGrows(more[0].txid, next, r);
    assert more == [more[0]] + more[1..];
  }

  lemma AddOne(txs: seq<TxSummary>, t: TxSummary)
    requires DistinctIds(txs)
    ensures var next := if Known(t.txid, txs) then txs else txs + [t];
            DistinctIds(next) && txs <= next && Known(t.txid, next) && forall s :: s in next ==> s in txs || s == t
  {
    assert (txs + [t])[|txs|] == t;
  }

  lemma KnownGrows(id: string, txs: seq<TxSummary>, r: seq<TxSummary>)
    requires Known(id, txs) && txs <= r
    ensures Known(id, r)
  {
    var i :| 0 <= i < |txs| && txs[i].txid == id;
    assert r[i].txid == id;
  }

  predicate InBatches(t: TxSummary, batches: seq<AddressTxs>) {
    exists i :: 0 <= i < |batches| && t in batches[i].transactions
  }

  lemma {:induction false} MergeAllFacts(txs: seq<TxSummary>, batches: seq<AddressTxs>)
    requires DistinctIds(txs)
    ensures var r := MergeAll(txs, batches);
            DistinctIds(r) && txs <= r && (forall t :: t in r ==> t in txs || InBatches(t, batches))
            && forall t :: InBatches(t, batches) ==> Known(t.txid, r)
    decreases |batches|
  {
    if batches != [] {
      var next := Merge(txs, batches[0].transactions);
      MergeFacts(txs, batches[0].transactions);
      MergeAllFacts(next, batches[1..]);
      var r := MergeAll(txs, batches);
      forall t | t in r ensures t in txs || InBatches(t, batches) {
        if InBatches(t, batches[1..]) {
          var i :| 0 <= i < |batches[1..]| && t in batches[1..][i].transactions;
          assert t in batches[i + 1].transactions;
        }
      }
      forall t | InBatches(t, batches) ensures Known(t.txid, r) {
        var i :| 0 <= i < |batches| && t in batches[i].transactions;
        if i == 0 {
          KnownGrows(t.txid, next, r);
        } else {
          assert t in batches[1..][i - 1].transactions;
        }
      }
    }
  }

  /** The merged transactions are the ledger's transactions touching the wallet, each once. */
  ghost predicate WalletTxs(txs: seq<TxSummary>, owned: Owned, ledger: seq<TxSummary>) {
    DistinctIds(txs) && forall t :: t in txs <==> t in ledger && TouchesOwned(t, owned)
  }

  lemma MergedIsWallet(records: seq<(string, string)>, fetch: string -> AddressTxs, ledger: seq<TxSummary>)
    requires WellFormed(ledger) && Complete(records, fetch, ledger)
    ensures WalletTxs(MergeAll([], Fetched(Addresses(records), fetch)), OwnedBy(records), ledger)
  {
    var owned, batches := OwnedBy(records), Fetched(Addresses(records), fetch);
    var txs := MergeAll([], batches);
    MergeAllFacts([], batches);
    forall t ensures InBatches(t, batches) <==> t in ledger && TouchesOwned(t, owned) {
      BatchesAreTouching(records, fetch, ledger, t);
    }
    forall t | InBatches(t, batches) ensures t in txs {
      var i :| 0 <= i < |txs| && txs[i].txid == t.txid;
      assert txs[i] in txs;
    }
  }

  lemma BatchesAreTouching(records: seq<(string, string)>, fetch: string -> AddressTxs, ledger: seq<TxSummary>,
                           t: TxSummary)
    requires Complete(records, fetch, ledger)
    ensures InBatches(t, Fetched(Addresses(records), fetch)) <==> t in ledger && TouchesOwned(t, OwnedBy(records))
  {
    var owned, addresses := OwnedBy(records), Addresses(records);
    var batches := Fetched(addresses, fetch);
    if i :| 0 <= i < |batches| && t in batches[i].transactions {
      assert addresses[i] in owned && Touches(t, addresses[i]);
    }
    if t in ledger && TouchesOwned(t, owned) {
      var a: string;
      if i :| 0 <= i < |t.inputs| && Pays(t.inputs[i], owned) {
        a := t.inputs[i].address.value;
      } else {
        var i :| 0 <= i < |t.outputs| && Pays(t.outputs[i], owned);
        a := t.outputs[i].address.value;
      }
      assert a in addresses && Touches(t, a);
      var k :| 0 <= k < |addresses| && addresses[k] == a;
      assert t in batches[k].transactions;
    }
  }

  // --- spenders -------------------------------------------------------------

  lemma {:induction false} AddSpendsFacts(m: map<Outpoint, string>, es: seq<TxEntry>, txid: string)
    ensures var r := AddSpends(m, es, txid);
            forall at :: (at in r <==> at in m || exists j :: 0 <= j < |es| && Spends(es[j]) == Some(at))
                         && (at in r ==>
                               r[at] == if exists j :: 0 <= j < |es| && Spends(es[j]) == Some(at) then txid else m[at])
    decreases |es|
  {
    if es != [] {
      var next := if Spends(es[0]).Some? then m[Spends(es[0]).value := txid] else m;
      AddSpendsFacts(next, es[1..], txid);
      forall at: Outpoint ensures (exists j :: 0 <= j < |es| && Spends(es[j]) == Some(at))
                    <==> Spends(es[0]) == Some(at) || exists j :: 0 <= j < |es[1..]| && Spends(es[1..][j]) == Some(at)
      {
        if j :| 0 <= j < |es| && Spends(es[j]) == Some(at) {
          if j > 0 { assert Spends(es[1..][j - 1]) == Some(at); }
        }
        if j :| 0 <= j < |es[1..]| && Spends(es[1..][j]) == Some(at) {
          assert Spends(es[j + 1]) == Some(at);
        }
      }
    }
  }

  /** The dictionary holds an outpoint exactly when a listed transaction spends it, with such a transaction's id. */
  lemma {:induction false} SpendersFacts(m: map<Outpoint, string>, txs: seq<TxSummary>, at: Outpoint)
    ensures var r := Spenders(m, txs);
            (at in r <==> at in m || exists s, j :: s in txs && SpendsAt(s, j, at))
            && (at in r && (at !in m || r[at] != m[at]) ==> SpentIn(txs, at, r[at]))
    decreases |txs|
  {
    if txs != [] {
      var next := AddSpends(m, txs[0].inputs, txs[0].txid);
      AddSpendsFacts(m, txs[0].inputs, txs[0].txid);
      SpendersFacts(next, txs[1..], at);
      if s, j :| s in txs && SpendsAt(s, j, at) {
        assert s == txs[0] || s in txs[1..];
      }
      var r := Spenders(m, txs);
      if at in r && (at !in m || r[at] != m[at]) {
        if at in next && r[at] == next[at] {
          var j :| 0 <= j < |txs[0].inputs| && Spends(txs[0].inputs[j]) == Some(at);
          assert txs[0] in txs && SpendsAt(txs[0], j, at);
        } else {
          var s, j :| s in txs[1..] && SpendsAt(s, j, at) && s.txid == r[at];
          assert s in txs;
        }
      }
    }
  }

  /** A spender of an owned output is itself in the wallet's transactions. */
  lemma SpenderTouches(ledger: seq<TxSummary>, owned: Owned, t: TxSummary, v: nat, s: TxSummary, j: nat)
    requires WellFormed(ledger) && t in ledger && s in ledger && v < |t.outputs| && Pays(t.outputs[v], owned)
    requires SpendsAt(s, j, (t.txid, v))
    ensures TouchesOwned(s, owned) && Pays(s.inputs[j], owned) && s.inputs[j].value == t.outputs[v].value
  {
    assert Resolved(ledger, s.inputs[j]);
  }

  /** An owned output is reported spent by `x` exactly when the ledger has `x` spend it. */
  lemma SpendInferred(ledger: seq<TxSummary>, owned: Owned, txs: seq<TxSummary>, t: TxSummary, v: nat, x: string)
    requires WellFormed(ledger) && WalletTxs(txs, owned, ledger)
    requires t in txs && v < |t.outputs| && Pays(t.outputs[v], owned)
    ensures SpentBy(t.outputs[v], (t.txid, v), Spenders(map[], txs)) == Some(x) <==> SpentIn(ledger, (t.txid, v), x)
  {
    var at: Outpoint := (t.txid, v);
    var e, m := t.outputs[v], Spenders(map[], txs);
    SpendersFacts(map[], txs, at);
    if SpentBy(e, at, m) == Some(x) && !(e.spentBy.Some? && e.spentBy.value != "") {
      var s, j :| s in txs && SpendsAt(s, j, at) && s.txid == x;
      assert s in ledger;
    }
    if s, j :| s in ledger && SpendsAt(s, j, at) && s.txid == x {
      SpenderTouches(ledger, owned, t, v, s, j);
      assert s in txs;
      if e.spentBy.Some? && e.spentBy.value != "" {
        assert SpentIn(ledger, at, e.spentBy.value);
      } else {
        var s', j' :| s' in txs && SpendsAt(s', j', at) && s'.txid == m[at];
        assert s' in ledger;
      }
    }
  }

  // --- the outputs listing --------------------------------------------------

  lemma {:induction false} TxOutputsHas(t: TxSummary, from: nat, v: nat, owned: Owned, m: map<Outpoint, string>)
    requires from <= v < |t.outputs| && Pays(t.outputs[v], owned)
    ensures MakeOutput(t, v, owned, m) in TxOutputs(t, from, owned, m)
    decreases v - from
  {
    if from < v { TxOutputsHas(t, from + 1, v, owned, m); }
  }

  lemma {:induction false} TxOutputsOnly(t: TxSummary, from: nat, owned: Owned, m: map<Outpoint, string>)
    ensures forall o :: o in TxOutputs(t, from, owned, m) ==>
              o.txid == t.txid && from <= o.vout < |t.outputs| && Pays(t.outputs[o.vout], owned)
              && o == MakeOutput(t, o.vout, owned, m)
    ensures NoDup(TxOutputs(t, from, owned, m))
    decreases |t.outputs| - from
  {
    if from < |t.outputs| { TxOutputsOnly(t, from + 1, owned, m); }
  }

  lemma {:induction false} AllOutputsHas(txs: seq<TxSummary>, t: TxSummary, v: nat, owned: Owned,
                                         m: map<Outpoint, string>)
    requires t in txs && v < |t.outputs| && Pays(t.outputs[v], owned)
    ensures MakeOutput(t, v, owned, m) in AllOutputs(txs, owned, m)
  {
    if txs[0] == t {
      TxOutputsHas(t, 0, v, owned, m);
    } else {
      AllOutputsHas(txs[1..], t, v, owned, m);
    }
  }

  lemma {:induction false} AllOutputsOnly(txs: seq<TxSummary>, owned: Owned, m: map<Outpoint, string>)
    requires DistinctIds(txs)
    ensures forall o :: o in AllOutputs(txs, owned, m) ==> Listed(o, txs, owned, m)
    ensures NoDup(AllOutputs(txs, owned, m))
  {
    if txs != [] {
      AllOutputsOnly(txs[1..], owned, m);
      TxOutputsOnly(txs[0], 0, owned, m);
      var a, b := TxOutputs(txs[0], 0, owned, m), AllOutputs(txs[1..], owned, m);
      forall o | o in a ensures Listed(o, txs, owned, m) {
        assert txs[0] in txs;
      }
      forall o | o in b ensures Listed(o, txs, owned, m) && o !in a {
        var i :| 0 <= i < |txs[1..]| && FromTx(o, txs[1..][i], owned, m);
        assert txs[i + 1].txid != txs[0].txid && FromTx(o, txs[i + 1], owned, m);
      }
      NoDupConcat(a, b);
    }
  }

  predicate FromTx(o: Output, t: TxSummary, owned: Owned, m: map<Outpoint, string>) {
    o.vout < |t.outputs| && Pays(t.outputs[o.vout], owned) && o == MakeOutput(t, o.vout, owned, m)
  }

  predicate Listed(o: Output, txs: seq<TxSummary>, owned: Owned, m: map<Outpoint, string>) {
    exists i :: 0 <= i < |txs| && FromTx(o, txs[i], owned, m)
  }

  lemma NoDupConcat<T>(a: seq<T>, b: seq<T>)
    requires NoDup(a) && NoDup(b) && forall x :: x in b ==> x !in a
    ensures NoDup(a + b)
  {
    var c := a + b;
    forall i, j | 0 <= i < j < |c| ensures c[i] != c[j] {
      if i < |a| <= j { assert c[j] in b && c[i] in a; }
    }
  }

  /**
   * A listing is exact when it has each owned output of the ledger once and
   * nothing else, marked spent by `x` exactly when the ledger has `x` spend it.
   */
  ghost predicate Exact(os: seq<Output>, owned: Owned, ledger: seq<TxSummary>) {
    && NoDup(os)
    && (forall o :: o in os ==> Justified(o, owned, ledger))
    && (forall t, v :: t in ledger && 0 <= v < |t.outputs| && Pays(t.outputs[v], owned) ==> Present(os, t, v, owned))
  }

  ghost predicate Justified(o: Output, owned: Owned, ledger: seq<TxSummary>) {
    (exists t :: t in ledger && Describes(o, t, owned))
    && forall x :: o.spentBy == Some(x) <==> SpentIn(ledger, (o.txid, o.vout), x)
  }

  ghost predicate Present(os: seq<Output>, t: TxSummary, v: nat, owned: Owned) {
    exists o :: o in os && o.vout == v && Describes(o, t, owned)
  }

  /** The outputs view is exact, and nothing is called truncated. */
  lemma OutputsAreExact(records: seq<(string, string)>, fetch: string -> AddressTxs, ledger: seq<TxSummary>)
    requires WellFormed(ledger) && Complete(records, fetch, ledger)
    ensures Exact(Assemble(records, fetch).outputs, OwnedBy(records), ledger)
    ensures Assemble(records, fetch).truncated == []
  {
    var owned := OwnedBy(records);
    NothingTruncated(records, fetch, Addresses(records));
    if Addresses(records) == [] {
      assert forall a :: a !in owned;
    } else {
      var txs := MergeAll([], Fetched(Addresses(records), fetch));
      MergedIsWallet(records, fetch, ledger);
      UnsortedExact(txs, owned, ledger);
      SortedExact(AllOutputs(txs, owned, Spenders(map[], txs)), owned, ledger);
    }
  }

  lemma UnsortedExact(txs: seq<TxSummary>, owned: Owned, ledger: seq<TxSummary>)
    requires WellFormed(ledger) && WalletTxs(txs, owned, ledger)
    ensures Exact(AllOutputs(txs, owned, Spenders(map[], txs)), owned, ledger)
  {
    var m := Spenders(map[], txs);
    var os := AllOutputs(txs, owned, m);
    AllOutputsOnly(txs, owned, m);
    forall o | o in os ensures Justified(o, owned, ledger) {
      var i :| 0 <= i < |txs| && FromTx(o, txs[i], owned, m);
      assert txs[i] in txs && Describes(o, txs[i], owned);
      forall x ensures o.spentBy == Some(x) <==> SpentIn(ledger, (o.txid, o.vout), x) {
        SpendInferred(ledger, owned, txs, txs[i], o.vout, x);
      }
    }
    forall t, v: nat | t in ledger && v < |t.outputs| && Pays(t.outputs[v], owned) ensures Present(os, t, v, owned) {
      assert t in txs;
      AllOutputsHas(txs, t, v, owned, m);
      assert Describes(MakeOutput(t, v, owned, m), t, owned);
    }
  }

  lemma SortedExact(os: seq<Output>, owned: Owned, ledger: seq<TxSummary>)
    requires Exact(os, owned, ledger)
    ensures Exact(Sort(os, OutputBefore), owned, ledger)
  {
    var r := Sort(os, OutputBefore);
    SortMultiset(os, OutputBefore);
    SortNoDup(os, OutputBefore);
    forall o ensures o in r <==> o in os {
      assert o in r <==> o in multiset(r);
    }
    forall t, v: nat | t in ledger && v < |t.outputs| && Pays(t.outputs[v], owned) ensures Present(r, t, v, owned) {
      assert Present(os, t, v, owned);
    }
  }

  /** The row describes that transaction's output, under the path its address is derived at. */
  predicate Describes(o: Output, t: TxSummary, owned: Owned) {
    o.txid == t.txid && HasOutput(t, o.vout, Some(o.address), o.value)
    && o.address in owned && o.path == owned[o.address]
    && o.confirmed == t.confirmed && o.blockHeight == t.blockHeight
  }

  lemma SortNoDup<T>(s: seq<T>, le: (T, T) -> bool)
    requires NoDup(s)
    ensures NoDup(Sort(s, le))
  {
    SortMultiset(s, le);
    var r := Sort(s, le);
    forall i, j | 0 <= i < j < |r| ensures r[i] != r[j] {
      if r[i] == r[j] {
        TwiceCounts(r, i, j);
        OnceCounts(s, r[i]);
        assert false;
      }
    }
  }

  lemma TwiceCounts<T>(s: seq<T>, i: nat, j: nat)
    requires i < j < |s| && s[i] == s[j]
    ensures multiset(s)[s[i]] >= 2
  {
    assert s == s[..j] + ([s[j]] + s[j + 1..]);
    assert s[i] in s[..j];
  }

  lemma {:induction false} OnceCounts<T>(s: seq<T>, x: T)
    requires NoDup(s)
    ensures multiset(s)[x] <= 1
  {
    if s != [] {
      OnceCounts(s[1..], x);
      assert s == [s[0]] + s[1..];
      if s[0] == x {
        assert x !in s[1..];
      }
    }
  }

  lemma {:induction false} NothingTruncated(records: seq<(string, string)>, fetch: string -> AddressTxs,
                                            addresses: seq<string>)
    requires forall a :: a in addresses ==> !fetch(a).truncated
    ensures Truncated(addresses, fetch) == []
  {
    if addresses != [] {
      assert addresses[0] in addresses;
      NothingTruncated(records, fetch, addresses[1..]);
    }
  }

  // --- conservation ---------------------------------------------------------

  /** A coin: an outpoint and what it is worth. */
  datatype Coin = Coin(at: Outpoint, value: int)

  function CoinValue(c: Coin): int { c.value }

  /** The owned coins one transaction's inputs spend, from input `j` on. */
  function InputCoins(t: TxSummary, j: nat, owned: Owned): seq<Coin>
    decreases |t.inputs| - j
  {
    if j >= |t.inputs| then []
    else
      var e := t.inputs[j];
      (if Pays(e, owned) && Spends(e).Some? then [Coin(Spends(e).value, e.value)] else []) + InputCoins(t, j + 1, owned)
  }

  function AllInputCoins(txs: seq<TxSummary>, owned: Owned): seq<Coin> {
    if txs == [] then [] else InputCoins(txs[0], 0, owned) + AllInputCoins(txs[1..], owned)
  }

  function SpentCoins(os: seq<Output>): seq<Coin> {
    if os == [] then []
    else (if os[0].spentBy.Some? then [Coin((os[0].txid, os[0].vout), os[0].value)] else []) + SpentCoins(os[1..])
  }

  predicate CoinFrom(c: Coin, t: TxSummary, j: nat, owned: Owned) {
    SpendsAt(t, j, c.at) && Pays(t.inputs[j], owned) && t.inputs[j].value == c.value
  }

  lemma {:induction false} InputCoinsFacts(ledger: seq<TxSummary>, t: TxSummary, from: nat, owned: Owned)
    requires WellFormed(ledger) && t in ledger
    ensures forall c :: c in InputCoins(t, from, owned) <==> exists j :: from <= j && CoinFrom(c, t, j, owned)
    ensures NoDup(InputCoins(t, from, owned))
    decreases |t.inputs| - from
  {
    if from < |t.inputs| {
      InputCoinsFacts(ledger, t, from + 1, owned);
      var rest := InputCoins(t, from + 1, owned);
      var e := t.inputs[from];
      if Pays(e, owned) && Spends(e).Some? {
        var c := Coin(Spends(e).value, e.value);
        assert CoinFrom(c, t, from, owned);
        assert c !in rest;
        NoDupConcat([c], rest);
      } else {
        assert [] + rest == rest;
      }
    }
  }

  predicate SpentByWallet(c: Coin, txs: seq<TxSummary>, owned: Owned) {
    exists i, j: nat :: 0 <= i < |txs| && j < |txs[i].inputs| && CoinFrom(c, txs[i], j, owned)
  }

  lemma {:induction false} AllInputCoinsFacts(ledger: seq<TxSummary>, txs: seq<TxSummary>, owned: Owned)
    requires WellFormed(ledger) && DistinctIds(txs) && forall t :: t in txs ==> t in ledger
    ensures forall c :: c in AllInputCoins(txs, owned) <==> SpentByWallet(c, txs, owned)
    ensures NoDup(AllInputCoins(txs, owned))
  {
    if txs != [] {
      AllInputCoinsFacts(ledger, txs[1..], owned);
      InputCoinsFacts(ledger, txs[0], 0, owned);
      var a, b := InputCoins(txs[0], 0, owned), AllInputCoins(txs[1..], owned);
      forall c ensures SpentByWallet(c, txs, owned) <==> c in a || c in b {
        SplitSpent(c, txs, owned);
      }
      forall c | c in b ensures c !in a {
        var i, j: nat :| 0 <= i < |txs[1..]| && j < |txs[1..][i].inputs| && CoinFrom(c, txs[1..][i], j, owned);
        assert txs[i + 1] in txs && txs[0] in txs;
      }
      NoDupConcat(a, b);
    }
  }

  lemma SplitSpent(c: Coin, txs: seq<TxSummary>, owned: Owned)
    requires txs != []
    ensures SpentByWallet(c, txs, owned) <==>
            (exists j: nat :: 0 <= j && CoinFrom(c, txs[0], j, owned)) || SpentByWallet(c, txs[1..], owned)
  {
    if i, j: nat :| 0 <= i < |txs| && j < |txs[i].inputs| && CoinFrom(c, txs[i], j, owned) {
      if i > 0 { assert CoinFrom(c, txs[1..][i - 1], j, owned); }
    }
    if i, j: nat :| 0 <= i < |txs[1..]| && j < |txs[1..][i].inputs| && CoinFrom(c, txs[1..][i], j, owned) {
      assert CoinFrom(c, txs[i + 1], j, owned);
    }
  }

  lemma {:induction false} SpentCoinsFacts(os: seq<Output>)
    requires forall i, j :: 0 <= i < j < |os| ==> (os[i].txid, os[i].vout) != (os[j].txid, os[j].vout)
    ensures forall c :: c in SpentCoins(os) <==>
              exists i :: 0 <= i < |os| && os[i].spentBy.Some? && c == Coin((os[i].txid, os[i].vout), os[i].value)
    ensures NoDup(SpentCoins(os))
  {
    if os != [] {
      SpentCoinsFacts(os[1..]);
      var a := if os[0].spentBy.Some? then [Coin((os[0].txid, os[0].vout), os[0].value)] else [];
      var b := SpentCoins(os[1..]);
      forall c | c in b ensures c !in a {
        var i :| 0 <= i < |os[1..]| && c == Coin((os[1..][i].txid, os[1..][i].vout), os[1..][i].value);
        assert os[1..][i] == os[i + 1];
      }
      NoDupConcat(a, b);
      forall c | c in b
        ensures exists i :: 0 <= i < |os| && os[i].spentBy.Some? && c == Coin((os[i].txid, os[i].vout), os[i].value)
      {
        var i :| 0 <= i < |os[1..]| && os[1..][i].spentBy.Some?
                 && c == Coin((os[1..][i].txid, os[1..][i].vout), os[1..][i].value);
        assert os[1..][i] == os[i + 1];
      }
      forall i | 1 <= i < |os| && os[i].spentBy.Some? ensures Coin((os[i].txid, os[i].vout), os[i].value) in b {
        assert os[i] == os[1..][i - 1];
      }
    }
  }

  /** Lists with the same elements, none twice, have the same sum. */
  lemma {:induction false} SameElementsSameSum(a: seq<Coin>, b: seq<Coin>)
    requires NoDup(a) && NoDup(b) && forall c :: c in a <==> c in b
    ensures SumBy(a, CoinValue) == SumBy(b, CoinValue)
    decreases |a|
  {
    if a == [] {
      NoElements(b);
    } else {
      var x := a[0];
      var rest, others := TakeCoin(a, x), TakeCoin(b, x);
      SameElementsSameSum(rest, others);
    }
  }

  lemma NoElements(b: seq<Coin>)
    ensures b == [] || exists c :: c in b
  {
    if b != [] { assert b[0] in b; }
  }

  ghost function TakeCoin(b: seq<Coin>, x: Coin): (rest: seq<Coin>)
    requires NoDup(b) && x in b
    ensures NoDup(rest) && |rest| < |b| && SumBy(b, CoinValue) == x.value + SumBy(rest, CoinValue)
    ensures forall c :: c in rest <==> c in b && c != x
  {
    if b[0] == x then b[1..]
    else
      var tail := TakeCoin(b[1..], x);
      assert ([b[0]] + tail)[1..] == tail;
      assert b[0] !in b[1..];
      NoDupConcat([b[0]], tail);
      [b[0]] + tail
  }

  lemma {:induction false} SumByConcat<T>(a: seq<T>, b: seq<T>, f: T -> int)
    ensures SumBy(a + b, f) == SumBy(a, f) + SumBy(b, f)
  {
    if a == [] {
      assert a + b == b;
    } else {
      SumByConcat(a[1..], b, f);
      assert (a + b)[1..] == a[1..] + b;
    }
  }

  function OutputValue(o: Output): int { o.value }

  lemma {:induction false} ReceivedIsListed(t: TxSummary, v: nat, owned: Owned, m: map<Outpoint, string>)
    requires v <= |t.outputs|
    ensures Received(t.outputs[v..], owned) == SumBy(TxOutputs(t, v, owned, m), OutputValue)
    decreases |t.outputs| - v
  {
    if v < |t.outputs| {
      ReceivedIsListed(t, v + 1, owned, m);
      assert t.outputs[v..][1..] == t.outputs[v + 1..];
      var rest := TxOutputs(t, v + 1, owned, m);
      if Pays(t.outputs[v], owned) {
        SumByConcat([MakeOutput(t, v, owned, m)], rest, OutputValue);
      } else {
        assert [] + rest == rest;
      }
    }
  }

  lemma {:induction false} SentIsCoins(ledger: seq<TxSummary>, t: TxSummary, j: nat, owned: Owned)
    requires WellFormed(ledger) && t in ledger && j <= |t.inputs|
    ensures Received(t.inputs[j..], owned) == SumBy(InputCoins(t, j, owned), CoinValue)
    decreases |t.inputs| - j
  {
    if j < |t.inputs| {
      SentIsCoins(ledger, t, j + 1, owned);
      assert t.inputs[j..][1..] == t.inputs[j + 1..];
      var e, rest := t.inputs[j], InputCoins(t, j + 1, owned);
      assert Resolved(ledger, e);
      if Pays(e, owned) {
        SumByConcat([Coin(Spends(e).value, e.value)], rest, CoinValue);
      } else {
        assert [] + rest == rest;
      }
    }
  }

  lemma {:induction false} NetIsDifference(ledger: seq<TxSummary>, txs: seq<TxSummary>, owned: Owned,
                                           m: map<Outpoint, string>)
    requires WellFormed(ledger) && forall t :: t in txs ==> t in ledger
    ensures SumBy(NetAll(txs, owned), Net)
            == SumBy(AllOutputs(txs, owned, m), OutputValue) - SumBy(AllInputCoins(txs, owned), CoinValue)
  {
    if txs != [] {
      var t := txs[0];
      NetIsDifference(ledger, txs[1..], owned, m);
      ReceivedIsListed(t, 0, owned, m);
      SentIsCoins(ledger, t, 0, owned);
      assert t.outputs[0..] == t.outputs && t.inputs[0..] == t.inputs;
      SumByConcat(TxOutputs(t, 0, owned, m), AllOutputs(txs[1..], owned, m), OutputValue);
      SumByConcat(InputCoins(t, 0, owned), AllInputCoins(txs[1..], owned), CoinValue);
      assert NetAll(txs, owned)[1..] == NetAll(txs[1..], owned);
    }
  }

  lemma {:induction false} SplitBySpent(os: seq<Output>)
    ensures SumBy(os, OutputValue) == SumBy(os, Unspent) + SumBy(SpentCoins(os), CoinValue)
  {
    if os != [] {
      SplitBySpent(os[1..]);
      var rest := SpentCoins(os[1..]);
      if os[0].spentBy.Some? {
        SumByConcat([Coin((os[0].txid, os[0].vout), os[0].value)], rest, CoinValue);
      } else {
        assert [] + rest == rest;
      }
    }
  }

  /** The coins the wallet's transactions spend are the outputs listed as spent. */
  lemma SpentCoinsAreInputs(ledger: seq<TxSummary>, txs: seq<TxSummary>, owned: Owned)
    requires WellFormed(ledger) && WalletTxs(txs, owned, ledger)
    ensures var os := AllOutputs(txs, owned, Spenders(map[], txs));
            SumBy(SpentCoins(os), CoinValue) == SumBy(AllInputCoins(txs, owned), CoinValue)
  {
    var m := Spenders(map[], txs);
    var os := AllOutputs(txs, owned, m);
    AllInputCoinsFacts(ledger, txs, owned);
    AllOutputsOnly(txs, owned, m);
    OutpointsDistinct(txs, os, owned, m);
    SpentCoinsFacts(os);
    forall c ensures c in SpentCoins(os) <==> SpentByWallet(c, txs, owned) {
      if c in SpentCoins(os) {
        var k :| 0 <= k < |os| && os[k].spentBy.Some? && c == Coin((os[k].txid, os[k].vout), os[k].value);
        assert Listed(os[k], txs, owned, m);
        ListedSpent(ledger, txs, owned, os[k]);
      }
      if SpentByWallet(c, txs, owned) {
        SpentListed(ledger, txs, owned, c);
      }
    }
    SameElementsSameSum(SpentCoins(os), AllInputCoins(txs, owned));
  }

  lemma OutpointsDistinct(txs: seq<TxSummary>, os: seq<Output>, owned: Owned, m: map<Outpoint, string>)
    requires DistinctIds(txs) && NoDup(os) && forall o :: o in os ==> Listed(o, txs, owned, m)
    ensures forall i, j :: 0 <= i < j < |os| ==> (os[i].txid, os[i].vout) != (os[j].txid, os[j].vout)
  {
    forall i, j | 0 <= i < j < |os| ensures (os[i].txid, os[i].vout) != (os[j].txid, os[j].vout) {
      assert os[i] in os && os[j] in os;
      var s :| 0 <= s < |txs| && FromTx(os[i], txs[s], owned, m);
      var t :| 0 <= t < |txs| && FromTx(os[j], txs[t], owned, m);
    }
  }

  lemma ListedSpent(ledger: seq<TxSummary>, txs: seq<TxSummary>, owned: Owned, o: Output)
    requires WellFormed(ledger) && WalletTxs(txs, owned, ledger)
    requires Listed(o, txs, owned, Spenders(map[], txs)) && o.spentBy.Some?
    ensures SpentByWallet(Coin((o.txid, o.vout), o.value), txs, owned)
  {
    var k :| 0 <= k < |txs| && FromTx(o, txs[k], owned, Spenders(map[], txs));
    var t := txs[k];
    assert t in txs;
    SpendInferred(ledger, owned, txs, t, o.vout, o.spentBy.value);
    var s, j :| s in ledger && SpendsAt(s, j, (o.txid, o.vout)) && s.txid == o.spentBy.value;
    SpenderTouches(ledger, owned, t, o.vout, s, j);
    assert s in txs;
    var i :| 0 <= i < |txs| && txs[i] == s;
    assert CoinFrom(Coin((o.txid, o.vout), o.value), txs[i], j, owned);
  }

  lemma SpentListed(ledger: seq<TxSummary>, txs: seq<TxSummary>, owned: Owned, c: Coin)
    requires WellFormed(ledger) && WalletTxs(txs, owned, ledger) && SpentByWallet(c, txs, owned)
    ensures var os := AllOutputs(txs, owned, Spenders(map[], txs));
            exists i :: 0 <= i < |os| && os[i].spentBy.Some? && c == Coin((os[i].txid, os[i].vout), os[i].value)
  {
    var m := Spenders(map[], txs);
    var i, j: nat :| 0 <= i < |txs| && j < |txs[i].inputs| && CoinFrom(c, txs[i], j, owned);
    var s := txs[i];
    assert s in txs;
    assert Resolved(ledger, s.inputs[j]);
    var t :| t in ledger && t.txid == c.at.0 && HasOutput(t, c.at.1, s.inputs[j].address, s.inputs[j].value);
    assert Pays(t.outputs[c.at.1], owned);
    assert t in txs;
    AllOutputsHas(txs, t, c.at.1, owned, m);
    var o := MakeOutput(t, c.at.1, owned, m);
    assert SpentIn(ledger, c.at, s.txid);
    SpendInferred(ledger, owned, txs, t, c.at.1, s.txid);
    var k :| 0 <= k < |AllOutputs(txs, owned, m)| && AllOutputs(txs, owned, m)[k] == o;
  }

  lemma {:induction false} SortSum<T>(s: seq<T>, le: (T, T) -> bool, f: T -> int)
    ensures SumBy(Sort(s, le), f) == SumBy(s, f)
  {
    if s != [] {
      SortSum(s[1..], le, f);
      InsertSum(s[0], Sort(s[1..], le), le, f);
    }
  }

  lemma {:induction false} InsertSum<T>(x: T, s: seq<T>, le: (T, T) -> bool, f: T -> int)
    ensures SumBy(Insert(x, s, le), f) == f(x) + SumBy(s, f)
  {
    if s == [] {
      assert [x][1..] == [];
    } else if le(x, s[0]) {
      assert ([x] + s)[1..] == s;
    } else {
      InsertSum(x, s[1..], le, f);
      assert ([s[0]] + Insert(x, s[1..], le))[1..] == Insert(x, s[1..], le);
    }
  }

  /** Conservation: what the wallet gained over all its transactions is what it still holds. */
  lemma NetEqualsUnspent(records: seq<(string, string)>, fetch: string -> AddressTxs, ledger: seq<TxSummary>)
    requires WellFormed(ledger) && Complete(records, fetch, ledger)
    ensures var h := Assemble(records, fetch);
            SumBy(h.transactions, Net) == SumBy(h.outputs, Unspent)
  {
    var owned := OwnedBy(records);
    if Addresses(records) != [] {
      var txs := MergeAll([], Fetched(Addresses(records), fetch));
      var os := AllOutputs(txs, owned, Spenders(map[], txs));
      MergedIsWallet(records, fetch, ledger);
      NetIsDifference(ledger, txs, owned, Spenders(map[], txs));
      SplitBySpent(os);
      SpentCoinsAreInputs(ledger, txs, owned);
      SortSum(NetAll(txs, owned), TxBefore, Net);
      SortSum(os, OutputBefore, Unspent);
    }
  }

  /** Both views come in the order of their sorts, ties in the order they were found. */
  lemma InOrder(records: seq<(string, string)>, fetch: string -> AddressTxs)
    ensures Sorted(Assemble(records, fetch).transactions, TxBefore)
    ensures Sorted(Assemble(records, fetch).outputs, OutputBefore)
  {
    var txs := MergeAll([], Fetched(Addresses(records), fetch));
    SortSorted(NetAll(txs, OwnedBy(records)), TxBefore);
    SortSorted(AllOutputs(txs, OwnedBy(records), Spenders(map[], txs)), OutputBefore);
  }
}
