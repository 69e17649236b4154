/** UTXO coin selection, child-pays-for-parent pricing and the OP_RETURN codec. */
module Coins {
  import opened Common
  import opened Rates
  import opened Sorting

  datatype Utxo = Utxo(txid: string, vout: nat, value: int, address: string, path: Option<string>,
                       confirmed: bool, ancestorDeficit: int)

  /** `utxo.path or default`. */
  function PathOf(u: Utxo, default: string): string {
    if u.path.Some? && u.path.value != "" then u.path.value else default
  }

  datatype Selection = Selection(utxos: seq<Utxo>, fee: int, change: int)

  /** Sizing constants of a script type: virtual bytes per input and output, and the dust limit. */
  datatype ScriptParams = ScriptParams(inputVb: nat, outputVb: nat, dust: int)

  const P2WPKH := ScriptParams(68, 31, 294)

  function Total(us: seq<Utxo>): int {
    if us == [] then 0 else us[0].value + Total(us[1..])
  }

  // --- sizes --------------------------------------------------------------

  function OpReturnVb(dataLen: nat): nat { 8 + 1 + 2 + dataLen }

  function EstimateVsize(inputs: nat, outputs: nat, opReturnLen: nat, script: ScriptParams): (r: nat) {
    11 + inputs * script.inputVb + outputs * script.outputVb
    + (if opReturnLen > 0 then OpReturnVb(opReturnLen) else 0)
  }

  // --- child-pays-for-parent ----------------------------------------------

  /** What a child must add so that its parent reaches the rate. */
  function CpfpDeficit(parentFee: int, parentVsize: int, rate: Rate): (d: int)
    ensures d >= 0
    ensures (parentFee + d) * rate.den >= parentVsize * rate.num
  {
    var d := Max(0, CeilAt(parentVsize, rate) - parentFee);
    CeilAtGalois(parentVsize, rate, parentFee + d);
    d
  }

  /** A fee that reaches the rate on a size. */
  ghost predicate Reaches(fee: int, size: int, rate: Rate) { fee * rate.den >= size * rate.num }

  /** The deficit lifts the parent to the rate, no smaller addition does, and a parent already there lacks nothing. */
  lemma DeficitIsLeast(parentFee: int, parentVsize: int, rate: Rate)
    ensures var d := CpfpDeficit(parentFee, parentVsize, rate);
            && Reaches(parentFee + d, parentVsize, rate)
            && (forall fee :: fee >= parentFee && Reaches(fee, parentVsize, rate) ==> parentFee + d <= fee)
            && (d == 0 <==> Reaches(parentFee, parentVsize, rate))
  {
    forall fee | fee >= parentFee && Reaches(fee, parentVsize, rate)
      ensures parentFee + CpfpDeficit(parentFee, parentVsize, rate) <= fee
    {
      CeilAtGalois(parentVsize, rate, fee);
    }
  }

  /** A lower rate never leaves more to add. */
  lemma DeficitMono(parentFee: int, parentVsize: nat, r: Rate, s: Rate)
    requires AtMost(r, s)
    ensures CpfpDeficit(parentFee, parentVsize, r) <= CpfpDeficit(parentFee, parentVsize, s)
  {
    CeilAtRateMono(parentVsize, r, s);
  }

  /** The distinct transactions behind the unconfirmed inputs, in order of first appearance. */
  function Parents(us: seq<Utxo>): (ps: seq<string>)
    ensures forall p :: p in ps <==> exists i :: 0 <= i < |us| && !us[i].confirmed && us[i].txid == p
    ensures NoDup(ps)
  {
    if us == [] then []
    else
      var init, last := Parents(us[..|us| - 1]), us[|us| - 1];
      assert us == us[..|us| - 1] + [last];
      if last.confirmed || last.txid in init then init else init + [last.txid]
  }

  /** The deficit recorded for a parent: that of its last unconfirmed output in the list. */
  function DeficitOf(us: seq<Utxo>, parent: string): int {
    if us == [] then 0
    else
      var last := us[|us| - 1];
      if !last.confirmed && last.txid == parent then last.ancestorDeficit
      else DeficitOf(us[..|us| - 1], parent)
  }

  function SumDeficits(us: seq<Utxo>, parents: seq<string>): int {
    if parents == [] then 0 else DeficitOf(us, parents[0]) + SumDeficits(us, parents[1..])
  }

  /** `cpfp_surcharge`: the dictionary's values, one per parent. */
  function CpfpSurcharge(us: seq<Utxo>): int { SumDeficits(us, Parents(us)) }

  ghost predicate AllConfirmed(us: seq<Utxo>) { forall i :: 0 <= i < |us| ==> us[i].confirmed }

  lemma {:induction false} NoSurcharge(us: seq<Utxo>)
    requires AllConfirmed(us)
    ensures Parents(us) == [] && CpfpSurcharge(us) == 0
  {
    if us != [] { NoSurcharge(us[..|us| - 1]); }
  }

  // --- selection ----------------------------------------------------------

  /** Prices a candidate shape: the chosen inputs and the number of value outputs. */
  type FeeModel = (seq<Utxo>, nat) -> int

  /** Confirmed before unconfirmed, then largest first. */
  predicate TakenBefore(a: Utxo, b: Utxo) {
    (a.confirmed && !b.confirmed) || (a.confirmed == b.confirmed && a.value >= b.value)
  }

  function Ordered(us: seq<Utxo>): (r: seq<Utxo>)
    ensures |r| == |us|
  {
    SortMultiset(us, TakenBefore);
    Sort(us, TakenBefore)
  }

  /** Does this shape pay for a change output worth keeping? */
  predicate WithChange(chosen: seq<Utxo>, send: int, dust: int, fee: FeeModel) {
    Total(chosen) - send - fee(chosen, 2) >= dust
  }

  /** Do these inputs fund the spend at all? */
  predicate Funds(chosen: seq<Utxo>, send: int, dust: int, fee: FeeModel) {
    WithChange(chosen, send, dust, fee) || Total(chosen) >= send + fee(chosen, 1)
  }

  function Settle(chosen: seq<Utxo>, send: int, dust: int, fee: FeeModel): Selection {
    if WithChange(chosen, send, dust, fee)
    then Selection(chosen, fee(chosen, 2), Total(chosen) - send - fee(chosen, 2))
    else Selection(chosen, Total(chosen) - send, 0)
  }

  /** The first prefix, of at least `k` coins, that funds the spend. */
  function FirstFunding(pool: seq<Utxo>, send: int, dust: int, fee: FeeModel, k: nat): (r: Option<nat>)
    ensures r.Some? ==> k <= r.value <= |pool| && Funds(pool[..r.value], send, dust, fee)
    ensures r.Some? ==> forall j :: k <= j < r.value ==> !Funds(pool[..j], send, dust, fee)
    ensures r.None? ==> forall j :: k <= j <= |pool| ==> !Funds(pool[..j], send, dust, fee)
    decreases |pool| - k
  {
    if k > |pool| then None
    else if Funds(pool[..k], send, dust, fee) then Some(k)
    else FirstFunding(pool, send, dust, fee, k + 1)
  }

  function Select(us: seq<Utxo>, send: int, dust: int, fee: FeeModel): Result<Selection, string> {
    var pool := Ordered(us);
    var k := FirstFunding(pool, send, dust, fee, 1);
    if k.None? then Err("insufficient funds") else Ok(Settle(pool[..k.value], send, dust, fee))
  }

  lemma {:induction false} TotalConcat(a: seq<Utxo>, b: seq<Utxo>)
    ensures Total(a + b) == Total(a) + Total(b)
  {
    if a == [] {
      assert a + b == b;
    } else {
      TotalConcat(a[1..], b);
      assert (a + b)[1..] == a[1..] + b;
    }
  }

  lemma TotalNext(us: seq<Utxo>, k: nat)
    requires k < |us|
    ensures us[..k + 1] == us[..k] + [us[k]]
    ensures Total(us[..k + 1]) == Total(us[..k]) + us[k].value
  {
    TotalConcat(us[..k], [us[k]]);
    assert us[..k + 1] == us[..k] + [us[k]];
    assert [us[k]][1..] == [];
  }

  /** `_select`: take coins in order until some shape is paid for. */
  method SelectCoins(us: seq<Utxo>, send: int, dust: int, fee: FeeModel) returns (r: Result<Selection, string>)
    ensures r == Select(us, send, dust, fee)
  {
    var pool := Ordered(us);
    var chosen, total := [], 0;
    for k := 0 to |pool|
      invariant chosen == pool[..k] && total == Total(chosen)
      invariant FirstFunding(pool, send, dust, fee, 1) == FirstFunding(pool, send, dust, fee, k + 1)
    {
      TotalNext(pool, k);
      chosen := chosen + [pool[k]];
      total := total + pool[k].value;
      var feeWithChange := fee(chosen, 2);
      var change := total - send - feeWithChange;
      if change >= dust {
        return Ok(Selection(chosen, feeWithChange, change));
      }
      if total >= send + fee(chosen, 1) {
        return Ok(Selection(chosen, total - send, 0));
      }
    }
    return Err("insufficient funds");
  }

  /** Value is conserved, change is nothing or worth keeping, and folding change costs less than dust. */
  lemma SelectionConserves(us: seq<Utxo>, send: int, dust: int, fee: FeeModel)
    requires Select(us, send, dust, fee).Ok?
    ensures var s := Select(us, send, dust, fee).value;
            && Total(s.utxos) == send + s.change + s.fee
            && s.utxos != [] && s.utxos <= Ordered(us)
            && (s.change == 0 || s.change >= dust)
            && (s.change >= dust && dust > 0 ==> s.fee == fee(s.utxos, 2))
            && (s.change == 0 && dust > 0 ==> fee(s.utxos, 1) <= s.fee < fee(s.utxos, 2) + dust)
  {
  }

  // --- largest-first is optimal -------------------------------------------

  ghost predicate Descending(us: seq<Utxo>) {
    forall i, j :: 0 <= i < j < |us| ==> us[i].value >= us[j].value
  }

  /** No choice of `|sub|` coins is worth more than the largest `|sub|`. */
  lemma {:induction false} LargestPrefix(pool: seq<Utxo>, sub: seq<Utxo>)
    requires Descending(pool) && multiset(sub) <= multiset(pool)
    ensures |sub| <= |pool| && Total(sub) <= Total(pool[..|sub|])
    decreases |pool|
  {
    if sub != [] {
      assert sub[0] in multiset(sub);
      assert pool != [];
      var m := pool[0];
      assert pool == [m] + pool[1..];
      var x, rest := TakeOut(sub, m);
      RestFits(sub, rest, x, m, pool[1..]);
      LargestPrefix(pool[1..], rest);
      assert x in multiset(pool);
      assert pool[..|sub|][1..] == pool[1..][..|rest|];
    }
  }

  /** Takes `m` out of `sub` if it is there, and some coin otherwise. */
  lemma TakeOut(sub: seq<Utxo>, m: Utxo) returns (x: Utxo, rest: seq<Utxo>)
    requires sub != []
    ensures multiset(sub) == multiset(rest) + multiset{x} && |sub| == |rest| + 1
    ensures Total(sub) == Total(rest) + x.value && (m in sub ==> x == m) && x in multiset(sub)
  {
    var i := 0;
    if m in sub { i :| 0 <= i < |sub| && sub[i] == m; }
    x := sub[i];
    var pre, post := sub[..i], sub[i + 1..];
    rest := pre + post;
    assert sub == pre + ([x] + post);
    TotalConcat(pre, [x] + post);
    TotalConcat(pre, post);
    assert ([x] + post)[1..] == post;
  }

  lemma RestFits(sub: seq<Utxo>, rest: seq<Utxo>, x: Utxo, m: Utxo, tail: seq<Utxo>)
    requires multiset(sub) == multiset(rest) + multiset{x}
    requires multiset(sub) <= multiset{m} + multiset(tail)
    requires m in sub ==> x == m
    ensures multiset(rest) <= multiset(tail)
  {
    var all, left := multiset(sub), multiset(rest);
    forall u ensures left[u] <= multiset(tail)[u] {
      assert all[u] <= multiset{m}[u] + multiset(tail)[u];
      if u == m {
        assert all[m] == 0 || x == m by { assert m in sub <==> m in all; }
      }
    }
  }

  /** A fee model that, over confirmed coins, prices by count alone and never charges less for more outputs. */
  ghost predicate ByCount(fee: FeeModel, price: (nat, nat) -> int) {
    (forall us: seq<Utxo>, n: nat :: AllConfirmed(us) ==> fee(us, n) == price(|us|, n))
    && forall k: nat :: price(k, 1) <= price(k, 2)
  }

  /** These coins, confirmed ones of `us`, cover the amount plus their own no-change fee. */
  ghost predicate Covers(sub: seq<Utxo>, us: seq<Utxo>, send: int, price: (nat, nat) -> int) {
    sub != [] && AllConfirmed(sub) && multiset(sub) <= multiset(us) && Total(sub) >= send + price(|sub|, 1)
  }

  /** The pool is the confirmed coins, largest first, and then the others. */
  ghost predicate SplitAt(pool: seq<Utxo>, n: nat) {
    && n <= |pool| && AllConfirmed(pool[..n]) && Descending(pool[..n])
    && forall i :: n <= i < |pool| ==> !pool[i].confirmed
  }

  lemma {:induction false} FindSplit(pool: seq<Utxo>) returns (n: nat)
    requires Sorted(pool, TakenBefore)
    ensures SplitAt(pool, n)
  {
    if pool == [] || !pool[0].confirmed {
      n := 0;
    } else {
      n := FindSplit(pool[1..]);
      assert pool[1..][..n] == pool[1..n + 1];
      n := n + 1;
      forall i | 0 <= i < n ensures pool[i].confirmed {
        if i > 0 { assert pool[i] == pool[1..][..n - 1][i - 1]; }
      }
      forall i | n <= i < |pool| ensures !pool[i].confirmed { assert pool[i] == pool[1..][i - 1]; }
      forall i, j | 0 <= i < j < n ensures pool[i].value >= pool[j].value { assert TakenBefore(pool[i], pool[j]); }
    }
  }

  lemma OrderedSplit(us: seq<Utxo>) returns (n: nat)
    ensures SplitAt(Ordered(us), n) && multiset(Ordered(us)) == multiset(us)
  {
    SortMultiset(us, TakenBefore);
    SortSorted(us, TakenBefore);
    n := FindSplit(Ordered(us));
  }

  /** A choice of confirmed coins is a choice of the pool's first part. */
  lemma ConfirmedFit(pool: seq<Utxo>, n: nat, sub: seq<Utxo>)
    requires SplitAt(pool, n) && AllConfirmed(sub) && multiset(sub) <= multiset(pool)
    ensures multiset(sub) <= multiset(pool[..n])
  {
    var all, chosen, first, rest := multiset(pool), multiset(sub), multiset(pool[..n]), multiset(pool[n..]);
    assert pool == pool[..n] + pool[n..];
    forall u ensures chosen[u] <= first[u] {
      assert chosen[u] <= all[u] == first[u] + rest[u];
      if rest[u] > 0 {
        assert u in pool[n..];
        assert !u.confirmed;
        assert u !in sub;
        assert u !in chosen;
      }
    }
  }

  /** If some confirmed coins cover the spend, as many of the largest fund it. */
  lemma PrefixFunds(us: seq<Utxo>, send: int, dust: int, fee: FeeModel, price: (nat, nat) -> int, sub: seq<Utxo>)
    requires ByCount(fee, price) && Covers(sub, us, send, price)
    ensures |sub| <= |Ordered(us)| && AllConfirmed(Ordered(us)[..|sub|])
    ensures Funds(Ordered(us)[..|sub|], send, dust, fee)
  {
    var pool := Ordered(us);
    var n := OrderedSplit(us);
    ConfirmedFit(pool, n, sub);
    LargestPrefix(pool[..n], sub);
    assert pool[..n][..|sub|] == pool[..|sub|];
  }

  lemma SelectedCovers(us: seq<Utxo>, send: int, dust: int, fee: FeeModel, price: (nat, nat) -> int)
    requires ByCount(fee, price) && dust >= 0 && Select(us, send, dust, fee).Ok?
    requires AllConfirmed(Select(us, send, dust, fee).value.utxos)
    ensures Covers(Select(us, send, dust, fee).value.utxos, us, send, price)
  {
    SortMultiset(us, TakenBefore);
    var pool := Ordered(us);
    var k := FirstFunding(pool, send, dust, fee, 1).value;
    var chosen := pool[..k];
    assert pool == chosen + pool[k..];
    assert price(k, 1) <= price(k, 2);
  }

  /** Whenever some choice of confirmed coins covers, selection takes no others, and no more inputs than that choice. */
  lemma SelectFewest(us: seq<Utxo>, send: int, dust: int, fee: FeeModel, price: (nat, nat) -> int, sub: seq<Utxo>)
    requires ByCount(fee, price) && dust >= 0 && Covers(sub, us, send, price)
    ensures var r := Select(us, send, dust, fee);
            r.Ok? && AllConfirmed(r.value.utxos) && |r.value.utxos| <= |sub|
  {
    PrefixFunds(us, send, dust, fee, price, sub);
    var pool := Ordered(us);
    var k := FirstFunding(pool, send, dust, fee, 1).value;
    assert pool[..k] == pool[..|sub|][..k];
  }

  /**
   * Selection comes back with confirmed coins alone exactly when some non-empty
   * choice of them covers the spend: it reaches for the others only when it must.
   */
  lemma SelectExactlyWhenCovered(us: seq<Utxo>, send: int, dust: int, fee: FeeModel, price: (nat, nat) -> int)
    requires ByCount(fee, price) && dust >= 0
    ensures var r := Select(us, send, dust, fee);
            && (r.Ok? && AllConfirmed(r.value.utxos) <==> exists sub :: Covers(sub, us, send, price))
            && (r.Ok? && AllConfirmed(us) ==> AllConfirmed(r.value.utxos))
  {
    var r := Select(us, send, dust, fee);
    if r.Ok? && AllConfirmed(us) {
      SortMultiset(us, TakenBefore);
      forall i | 0 <= i < |r.value.utxos| ensures r.value.utxos[i].confirmed {
        assert Ordered(us)[i] in multiset(us);
      }
    }
    if r.Ok? && AllConfirmed(r.value.utxos) {
      SelectedCovers(us, send, dust, fee, price);
    }
    if sub :| Covers(sub, us, send, price) {
      SelectFewest(us, send, dust, fee, price, sub);
    }
  }

  // --- select_coins: a fee rate over estimated sizes ------------------------

  function RateFee(rate: Rate, memoLen: nat, script: ScriptParams): FeeModel {
    (chosen: seq<Utxo>, outputs: nat) =>
      CeilAt(EstimateVsize(|chosen|, outputs, memoLen, script), rate) + CpfpSurcharge(chosen)
  }

  function RatePrice(rate: Rate, memoLen: nat, script: ScriptParams): (nat, nat) -> int {
    (inputs: nat, outputs: nat) => CeilAt(EstimateVsize(inputs, outputs, memoLen, script), rate)
  }

  lemma RateFeeByCount(rate: Rate, memoLen: nat, script: ScriptParams)
    requires rate.num >= 0
    ensures ByCount(RateFee(rate, memoLen, script), RatePrice(rate, memoLen, script))
  {
    var fee, price := RateFee(rate, memoLen, script), RatePrice(rate, memoLen, script);
    forall us: seq<Utxo>, n: nat | AllConfirmed(us) ensures fee(us, n) == price(|us|, n) {
      NoSurcharge(us);
    }
    forall k: nat ensures price(k, 1) <= price(k, 2) {
      CeilAtMono(EstimateVsize(k, 1, memoLen, script), EstimateVsize(k, 2, memoLen, script), rate);
    }
  }

  /**
   * `select_coins`, on any pool: confirmed coins alone exactly when they can
   * cover the spend, with the fewest inputs that do. With every coin confirmed,
   * it succeeds exactly when it can.
   */
  lemma SelectCoinsOptimal(us: seq<Utxo>, send: int, rate: Rate, memoLen: nat, script: ScriptParams)
    requires rate.num >= 0 && script.dust >= 0
    ensures var price := RatePrice(rate, memoLen, script);
            var r := Select(us, send, script.dust, RateFee(rate, memoLen, script));
            && (r.Ok? && AllConfirmed(r.value.utxos) <==> exists sub :: Covers(sub, us, send, price))
            && (forall sub :: Covers(sub, us, send, price) ==> |r.value.utxos| <= |sub|)
            && (AllConfirmed(us) ==> (r.Ok? <==> exists sub :: Covers(sub, us, send, price)))
  {
    var fee, price := RateFee(rate, memoLen, script), RatePrice(rate, memoLen, script);
    RateFeeByCount(rate, memoLen, script);
    SelectExactlyWhenCovered(us, send, script.dust, fee, price);
    forall sub | Covers(sub, us, send, price)
      ensures |Select(us, send, script.dust, fee).value.utxos| <= |sub|
    {
      SelectFewest(us, send, script.dust, fee, price, sub);
    }
  }

  // --- cpfp_deficits and the package rate -----------------------------------

  /** What the chain says about an unconfirmed input's transaction. */
  datatype Parent = Parent(confirmed: bool, fee: int, vsize: int)

  type Lookup = string -> Option<Parent>

  function KnownDeficit(p: Parent, rate: Rate): int {
    if p.confirmed then 0 else CpfpDeficit(p.fee, p.vsize, rate)
  }

  /** Nothing for a mined parent; for any other, the least that brings its fee to the rate on its size. */
  predicate Owes(d: int, parent: Parent, rate: Rate) {
    && (parent.confirmed ==> d == 0)
    && (!parent.confirmed ==> d >= 0 && (parent.fee + d) * rate.den >= parent.vsize * rate.num)
    && (!parent.confirmed && d > 0 ==> (parent.fee + d - 1) * rate.den < parent.vsize * rate.num)
  }

  lemma KnownDeficitMeans(p: Parent, rate: Rate)
    ensures Owes(KnownDeficit(p, rate), p, rate)
  {
    var d := KnownDeficit(p, rate);
    if !p.confirmed && d > 0 { CeilAtGalois(p.vsize, rate, p.fee + d - 1); }
  }

  function Price(u: Utxo, deficits: map<string, int>): Utxo {
    if u.txid in deficits then u.(ancestorDeficit := deficits[u.txid]) else u
  }

  /** Every unconfirmed coin carries its parent's shortfall at the rate. */
  ghost predicate PricedAt(us: seq<Utxo>, lookup: Lookup, rate: Rate) {
    forall i :: 0 <= i < |us| && !us[i].confirmed ==>
      lookup(us[i].txid).Some? && us[i].ancestorDeficit == KnownDeficit(lookup(us[i].txid).value, rate)
  }

  /** `cpfp_deficits`: each distinct mempool parent is looked up once, and nothing else is. */
  method CpfpDeficits(us: seq<Utxo>, lookup: Lookup, rate: Rate)
    returns (r: Result<seq<Utxo>, string>, ghost fetched: seq<string>)
    ensures NoDup(fetched) && forall p :: p in fetched ==> p in Parents(us)
    ensures r.Ok? <==> forall p :: p in Parents(us) ==> lookup(p).Some?
    ensures r.Ok? ==> forall p :: p in Parents(us) ==> p in fetched
    ensures r.Ok? ==> |r.value| == |us| && PricedAt(r.value, lookup, rate)
    ensures r.Ok? ==> forall i :: 0 <= i < |us| ==>
              r.value[i] == us[i].(ancestorDeficit := r.value[i].ancestorDeficit)
    ensures r.Ok? ==> forall i :: 0 <= i < |us| && us[i].txid in Parents(us) ==>
              Owes(r.value[i].ancestorDeficit, lookup(us[i].txid).value, rate)
    ensures r.Ok? ==> forall i :: 0 <= i < |us| && us[i].txid !in Parents(us) ==> r.value[i] == us[i]
  {
    var deficits: map<string, int> := map[];
    fetched := [];
    for k := 0 to |us|
      invariant NoDup(fetched) && forall p :: p in fetched <==> p in deficits
      invariant forall p :: p in deficits <==> exists i :: 0 <= i < k && !us[i].confirmed && us[i].txid == p
      invariant forall p :: p in deficits ==>
                  lookup(p).Some? && deficits[p] == KnownDeficit(lookup(p).value, rate)
    {
      var u := us[k];
      if u.confirmed || u.txid in deficits {
        continue;
      }
      var parent := lookup(u.txid);
      if parent.None? {
        assert u.txid in Parents(us);
        return Err("cannot price the unconfirmed parent"), fetched;
      }
      fetched := fetched + [u.txid];
      deficits := deficits[u.txid := if parent.value.confirmed then 0
                                     else CpfpDeficit(parent.value.fee, parent.value.vsize, rate)];
    }
    assert forall p :: p in Parents(us) <==> p in deficits;
    forall p | p in deficits ensures Owes(deficits[p], lookup(p).value, rate) {
      KnownDeficitMeans(lookup(p).value, rate);
    }
    return Ok(seq(|us|, i requires 0 <= i < |us| => Price(us[i], deficits))), fetched;
  }

  lemma {:induction false} DeficitKnown(us: seq<Utxo>, lookup: Lookup, rate: Rate, p: string)
    requires PricedAt(us, lookup, rate) && p in Parents(us)
    ensures lookup(p).Some? && DeficitOf(us, p) == KnownDeficit(lookup(p).value, rate)
  {
    var init, last := us[..|us| - 1], us[|us| - 1];
    if !(!last.confirmed && last.txid == p) {
      assert p in Parents(init);
      DeficitKnown(init, lookup, rate, p);
    }
  }

  /** The parents that are still unconfirmed, each once. */
  function Pending(ps: seq<string>, lookup: Lookup): seq<Parent> {
    if ps == [] then []
    else
      var here := lookup(ps[0]);
      (if here.Some? && !here.value.confirmed then [here.value] else []) + Pending(ps[1..], lookup)
  }

  function Fees(ps: seq<Parent>): int { if ps == [] then 0 else ps[0].fee + Fees(ps[1..]) }

  function Vsizes(ps: seq<Parent>): int { if ps == [] then 0 else ps[0].vsize + Vsizes(ps[1..]) }

  lemma {:induction false} DeficitsLift(us: seq<Utxo>, ps: seq<string>, lookup: Lookup, rate: Rate)
    requires PricedAt(us, lookup, rate) && forall p :: p in ps ==> p in Parents(us)
    ensures (SumDeficits(us, ps) + Fees(Pending(ps, lookup))) * rate.den >= Vsizes(Pending(ps, lookup)) * rate.num
  {
    if ps != [] {
      assert ps[0] in ps;
      DeficitKnown(us, lookup, rate, ps[0]);
      DeficitsLift(us, ps[1..], lookup, rate);
      var here, rest := lookup(ps[0]).value, Pending(ps[1..], lookup);
      var d, more := DeficitOf(us, ps[0]), SumDeficits(us, ps[1..]);
      if here.confirmed {
        assert Pending(ps, lookup) == [] + rest == rest;
        assert (d + more + Fees(rest)) == more + Fees(rest);
      } else {
        assert Pending(ps, lookup) == [here] + rest;
        assert ([here] + rest)[1..] == rest;
        Distribute(d + here.fee, more + Fees(rest), rate.den);
        Distribute(here.vsize, Vsizes(rest), rate.num);
        assert d + more + Fees(Pending(ps, lookup)) == (d + here.fee) + (more + Fees(rest));
      }
    }
  }

  lemma Distribute(a: int, b: int, c: int)
    ensures (a + b) * c == a * c + b * c
  {
  }

  /** A child's fee and its parents' own, together, pay the rate on their combined size. */
  ghost predicate PackageReaches(fee: int, child: int, parents: seq<Parent>, rate: Rate) {
    (fee + Fees(parents)) * rate.den >= (child + Vsizes(parents)) * rate.num
  }

  /**
   * A fee with the surcharge in it, and the parents' own fees, pay the rate on
   * the child and its distinct unconfirmed parents together.
   */
  lemma PackagePays(us: seq<Utxo>, lookup: Lookup, rate: Rate, child: int, fee: int)
    requires PricedAt(us, lookup, rate) && fee >= CeilAt(child, rate) + CpfpSurcharge(us)
    ensures PackageReaches(fee, child, Pending(Parents(us), lookup), rate)
  {
    var parents := Pending(Parents(us), lookup);
    DeficitsLift(us, Parents(us), lookup, rate);
    CeilAtGalois(child, rate, CeilAt(child, rate));
    var own, extra := fee - CpfpSurcharge(us), CpfpSurcharge(us) + Fees(parents);
    Scale(CeilAt(child, rate), own, rate.den);
    Distribute(own, extra, rate.den);
    Distribute(child, Vsizes(parents), rate.num);
  }

  /** How many value outputs the selection pays for. */
  function OutputsOf(s: Selection, dust: int): nat { if s.change >= dust then 2 else 1 }

  /**
   * The child and its distinct unconfirmed parents together pay the rate on
   * their combined size, each parent charged once.
   */
  lemma PackageRate(us: seq<Utxo>, lookup: Lookup, rate: Rate, send: int, memoLen: nat, script: ScriptParams)
    requires PricedAt(us, lookup, rate) && script.dust > 0
    requires Select(us, send, script.dust, RateFee(rate, memoLen, script)).Ok?
    ensures var s := Select(us, send, script.dust, RateFee(rate, memoLen, script)).value;
            PackageReaches(s.fee, EstimateVsize(|s.utxos|, OutputsOf(s, script.dust), memoLen, script),
                           Pending(Parents(s.utxos), lookup), rate)
  {
    var fee := RateFee(rate, memoLen, script);
    SelectionConserves(us, send, script.dust, fee);
    var s := Select(us, send, script.dust, fee).value;
    ChosenPriced(us, s.utxos, lookup, rate);
    PackagePays(s.utxos, lookup, rate, EstimateVsize(|s.utxos|, OutputsOf(s, script.dust), memoLen, script), s.fee);
  }

  /** `sweep_amount`: what is left of `total` after the fee of one output and the surcharge, and that fee. */
  function SweepAmount(total: int, inputs: nat, rate: Rate, memoLen: nat, script: ScriptParams, extraFee: int)
    : Result<(int, int), string>
  {
    var fee := CeilAt(EstimateVsize(inputs, 1, memoLen, script), rate) + extraFee;
    if total - fee < script.dust then Err("too small to sweep") else Ok((total - fee, fee))
  }

  lemma LongerMemo(inputs: nat, m: nat, n: nat, script: ScriptParams)
    requires m <= n
    ensures EstimateVsize(inputs, 1, m, script) <= EstimateVsize(inputs, 1, n, script)
  {
  }

  lemma LargerPays(us: seq<Utxo>, lookup: Lookup, rate: Rate, small: int, big: int, fee: int)
    requires PricedAt(us, lookup, rate) && rate.num >= 0 && small <= big
    requires fee == CeilAt(big, rate) + CpfpSurcharge(us)
    ensures PackageReaches(fee, small, Pending(Parents(us), lookup), rate)
  {
    CeilAtMono(small, big, rate);
    PackagePays(us, lookup, rate, small, fee);
  }

  /**
   * Sweeping the advised amount leaves exactly the advised fee, and pays the
   * rate on the sweep and its parents together, whatever memo up to the length
   * reckoned with it carries.
   */
  lemma SweepPaysPackage(us: seq<Utxo>, lookup: Lookup, rate: Rate, memoLen: nat, carried: nat, script: ScriptParams)
    requires PricedAt(us, lookup, rate) && rate.num >= 0 && carried <= memoLen
    requires SweepAmount(Total(us), |us|, rate, memoLen, script, CpfpSurcharge(us)).Ok?
    ensures var (amount, fee) := SweepAmount(Total(us), |us|, rate, memoLen, script, CpfpSurcharge(us)).value;
            && Total(us) - amount == fee && amount >= script.dust
            && PackageReaches(fee, EstimateVsize(|us|, 1, carried, script), Pending(Parents(us), lookup), rate)
  {
    LongerMemo(|us|, carried, memoLen, script);
    var (amount, fee) := SweepAmount(Total(us), |us|, rate, memoLen, script, CpfpSurcharge(us)).value;
    var small, big := EstimateVsize(|us|, 1, carried, script), EstimateVsize(|us|, 1, memoLen, script);
    LargerPays(us, lookup, rate, small, big, fee);
  }

  lemma ChosenPriced(us: seq<Utxo>, chosen: seq<Utxo>, lookup: Lookup, rate: Rate)
    requires PricedAt(us, lookup, rate) && chosen <= Ordered(us)
    ensures PricedAt(chosen, lookup, rate)
  {
    SortMultiset(us, TakenBefore);
    forall i | 0 <= i < |chosen|
      ensures chosen[i] in us
    {
      assert chosen[i] == Ordered(us)[i];
      assert Ordered(us)[i] in multiset(us);
    }
  }

  // --- OP_RETURN ------------------------------------------------------------

  const OP_RETURN: byte := 0x6A
  const OP_PUSHDATA1: byte := 0x4C
  const OP_RETURN_MAX_BYTES := 80

  function EncodeOpReturn(data: seq<byte>): Result<seq<byte>, string> {
    if |data| > OP_RETURN_MAX_BYTES then Err("OP_RETURN data too long")
    else if |data| < OP_PUSHDATA1 then Ok([OP_RETURN, |data|] + data)
    else Ok([OP_RETURN, OP_PUSHDATA1, |data|] + data)
  }

  function DecodeOpReturn(script: seq<byte>): Result<seq<byte>, string> {
    if script == [] || script[0] != OP_RETURN then Err("not an OP_RETURN script")
    else if |script| < 2 then Err("no data push")
    else if script[1] == OP_PUSHDATA1 then
      if |script| < 3 then Err("truncated OP_PUSHDATA1")
      else var n: int := script[2]; Ok(Slice(script, 3, 3 + n))
    else var n: int := script[1]; Ok(Slice(script, 2, 2 + n))
  }

  /** Every payload that can be carried is read back byte for byte. */
  lemma OpReturnRoundTrip(data: seq<byte>)
    ensures EncodeOpReturn(data).Ok? <==> |data| <= OP_RETURN_MAX_BYTES
    ensures EncodeOpReturn(data).Ok? ==> DecodeOpReturn(EncodeOpReturn(data).value) == Ok(data)
    ensures EncodeOpReturn(data).Ok? ==>
              EncodeOpReturn(data).value[0] == OP_RETURN
              && |data| + 2 <= |EncodeOpReturn(data).value| <= |data| + 3
  {
    if |data| <= OP_RETURN_MAX_BYTES {
      var script := EncodeOpReturn(data).value;
      if |data| < OP_PUSHDATA1 {
        assert script[2..2 + |data|] == data;
      } else {
        assert script[3..3 + |data|] == data;
      }
    }
  }
}
