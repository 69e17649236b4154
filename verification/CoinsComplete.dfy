/** When greedy selection finds a way to fund a spend whenever there is one, unconfirmed coins included. */
module CoinsComplete {
  import opened Common
  import opened Coins
  import opened Rates
  import opened Sorting

  // --- exactly when ---------------------------------------------------------

  /** What these coins leave for the recipient after their own no-change fee. */
  function Nets(sub: seq<Utxo>, fee: FeeModel): int { Total(sub) - fee(sub, 1) }

  /** Some of the coins of `us`. */
  ghost predicate Choice(sub: seq<Utxo>, us: seq<Utxo>) { sub != [] && multiset(sub) <= multiset(us) }

  ghost predicate Coverable(us: seq<Utxo>, send: int, fee: FeeModel) {
    exists sub :: Choice(sub, us) && Nets(sub, fee) >= send
  }

  /** Change never makes a spend cheaper. */
  ghost predicate ChangeCosts(fee: FeeModel) { forall us: seq<Utxo> :: fee(us, 1) <= fee(us, 2) }

  /** Selection succeeds exactly when some prefix of the ordered pool nets the amount. */
  lemma SelectByPrefix(us: seq<Utxo>, send: int, dust: int, fee: FeeModel)
    requires ChangeCosts(fee) && dust >= 0
    ensures Select(us, send, dust, fee).Ok? <==>
            exists k :: 1 <= k <= |us| && Nets(Ordered(us)[..k], fee) >= send
  {
    var pool := Ordered(us);
    forall k | 1 <= k <= |us| ensures Funds(pool[..k], send, dust, fee) <==> Nets(pool[..k], fee) >= send {
      assert fee(pool[..k], 1) <= fee(pool[..k], 2);
    }
  }

  lemma PrefixIsChoice(us: seq<Utxo>, k: nat)
    requires 1 <= k <= |us|
    ensures Choice(Ordered(us)[..k], us)
  {
    SortMultiset(us, TakenBefore);
    assert Ordered(us) == Ordered(us)[..k] + Ordered(us)[k..];
  }

  /** A prefix that nets the most of all prefixes up to `n`. */
  lemma {:induction false} BestPrefix(pool: seq<Utxo>, fee: FeeModel, n: nat) returns (best: nat)
    requires 1 <= n <= |pool|
    ensures 1 <= best <= n
    ensures forall k :: 1 <= k <= n ==> Nets(pool[..k], fee) <= Nets(pool[..best], fee)
  {
    if n == 1 {
      best := 1;
    } else {
      best := BestPrefix(pool, fee, n - 1);
      if Nets(pool[..n], fee) > Nets(pool[..best], fee) { best := n; }
    }
  }

  /** Prefix `k` of the ordered pool nets at least as much as any choice of coins. */
  ghost predicate NoChoiceBeats(us: seq<Utxo>, k: nat, fee: FeeModel) {
    1 <= k <= |us| && forall sub :: Choice(sub, us) ==> Nets(sub, fee) <= Nets(Ordered(us)[..k], fee)
  }

  /**
   * A pool is selected from whenever some choice of its coins covers the amount,
   * whatever the amount, exactly when no choice nets more than every prefix of
   * the ordered pool.
   */
  lemma CompleteExactly(us: seq<Utxo>, dust: int, fee: FeeModel)
    requires us != [] && ChangeCosts(fee) && dust >= 0
    ensures (forall send :: Select(us, send, dust, fee).Ok? <==> Coverable(us, send, fee))
            <==> exists k :: NoChoiceBeats(us, k, fee)
  {
    if k :| NoChoiceBeats(us, k, fee) {
      forall send ensures Select(us, send, dust, fee).Ok? <==> Coverable(us, send, fee) {
        CompleteAt(us, send, dust, fee, k);
      }
    } else {
      var best := BestPrefix(Ordered(us), fee, |us|);
      assert !NoChoiceBeats(us, best, fee);
      var sub :| Choice(sub, us) && Nets(sub, fee) > Nets(Ordered(us)[..best], fee);
      SelectByPrefix(us, Nets(sub, fee), dust, fee);
      assert Coverable(us, Nets(sub, fee), fee) && Select(us, Nets(sub, fee), dust, fee).Err?;
    }
  }

  lemma CompleteAt(us: seq<Utxo>, send: int, dust: int, fee: FeeModel, k: nat)
    requires NoChoiceBeats(us, k, fee) && ChangeCosts(fee) && dust >= 0
    ensures Select(us, send, dust, fee).Ok? <==> Coverable(us, send, fee)
  {
    SelectByPrefix(us, send, dust, fee);
    if Select(us, send, dust, fee).Ok? {
      var j :| 1 <= j <= |us| && Nets(Ordered(us)[..j], fee) >= send;
      PrefixIsChoice(us, j);
    }
  }

  // --- what the surcharge of a pool comes to ---------------------------------

  /** The deficits are those of one price list, as `cpfp_deficits` makes them. */
  ghost predicate Listed(us: seq<Utxo>, d: string -> nat) {
    forall u :: u in us && !u.confirmed ==> u.ancestorDeficit == d(u.txid)
  }

  function Debt(d: string -> nat, ps: seq<string>): nat { if ps == [] then 0 else d(ps[0]) + Debt(d, ps[1..]) }

  lemma {:induction false} DebtConcat(d: string -> nat, a: seq<string>, b: seq<string>)
    ensures Debt(d, a + b) == Debt(d, a) + Debt(d, b)
  {
    if a == [] {
      assert a + b == b;
    } else {
      DebtConcat(d, a[1..], b);
      assert (a + b)[1..] == a[1..] + b;
    }
  }

  lemma {:induction false} DebtWithin(d: string -> nat, ps: seq<string>, qs: seq<string>)
    requires NoDup(ps) && forall p :: p in ps ==> p in qs
    ensures Debt(d, ps) <= Debt(d, qs)
  {
    if ps != [] {
      assert ps[0] in qs;
      var i :| 0 <= i < |qs| && qs[i] == ps[0];
      var pre, post := qs[..i], qs[i + 1..];
      assert qs == pre + ([qs[i]] + post) && ([qs[i]] + post)[1..] == post;
      DebtConcat(d, pre, [qs[i]] + post);
      DebtConcat(d, pre, post);
      forall p | p in ps[1..] ensures p in pre + post {
        assert p in qs && p != ps[0];
      }
      DebtWithin(d, ps[1..], pre + post);
    }
  }

  lemma {:induction false} DeficitListed(us: seq<Utxo>, d: string -> nat, p: string)
    requires Listed(us, d) && p in Parents(us)
    ensures DeficitOf(us, p) == d(p)
  {
    var init, last := us[..|us| - 1], us[|us| - 1];
    if !(!last.confirmed && last.txid == p) {
      assert p in Parents(init);
      DeficitListed(init, d, p);
    }
  }

  lemma {:induction false} SumIsDebt(us: seq<Utxo>, d: string -> nat, ps: seq<string>)
    requires Listed(us, d) && forall p :: p in ps ==> p in Parents(us)
    ensures SumDeficits(us, ps) == Debt(d, ps)
  {
    if ps != [] {
      assert ps[0] in ps;
      DeficitListed(us, d, ps[0]);
      SumIsDebt(us, d, ps[1..]);
    }
  }

  /** The parent of each unconfirmed coin, once per coin. */
  function ParentOfEach(us: seq<Utxo>): (ps: seq<string>)
    ensures forall u :: u in us && !u.confirmed ==> u.txid in ps
  {
    if us == [] then [] else (if us[0].confirmed then [] else [us[0].txid]) + ParentOfEach(us[1..])
  }

  /** More coins add at most their own parents' deficits. */
  lemma SurchargeGrows(us: seq<Utxo>, sub: seq<Utxo>, rest: seq<Utxo>, d: string -> nat)
    requires Listed(us, d) && multiset(us) == multiset(sub) + multiset(rest)
    ensures CpfpSurcharge(us) <= CpfpSurcharge(sub) + Debt(d, ParentOfEach(rest))
  {
    forall u ensures u in us <==> u in sub || u in rest {
      assert u in us <==> u in multiset(us);
    }
    SumIsDebt(us, d, Parents(us));
    SumIsDebt(sub, d, Parents(sub));
    forall p | p in Parents(us) ensures p in Parents(sub) + ParentOfEach(rest) {
      var i :| 0 <= i < |us| && !us[i].confirmed && us[i].txid == p;
      assert us[i] in us;
      if us[i] in sub {
        var j :| 0 <= j < |sub| && sub[j] == us[i];
        assert p in Parents(sub);
      }
    }
    DebtWithin(d, Parents(us), Parents(sub) + ParentOfEach(rest));
    DebtConcat(d, Parents(sub), ParentOfEach(rest));
  }

  // --- coins that pay for themselves ----------------------------------------

  /** Worth at least the fee of its own input and what its parent lacks. */
  predicate Worthwhile(u: Utxo, d: string -> nat, rate: Rate, script: ScriptParams) {
    u.value >= CeilAt(script.inputVb, rate) + if u.confirmed then 0 else d(u.txid)
  }

  lemma CeilAtSum(m: int, n: int, rate: Rate)
    ensures CeilAt(m + n, rate) <= CeilAt(m, rate) + CeilAt(n, rate)
  {
    var a, b := CeilAt(m, rate), CeilAt(n, rate);
    CeilAtGalois(m, rate, a);
    CeilAtGalois(n, rate, b);
    Distribute(m, n, rate.num);
    Distribute(a, b, rate.den);
    CeilAtGalois(m + n, rate, a + b);
  }

  /** Each coin added costs at most one input and its parent's deficit, and brings at least that. */
  lemma {:induction false} RestPays(n: nat, rest: seq<Utxo>, d: string -> nat, rate: Rate, memoLen: nat,
                                    script: ScriptParams)
    requires forall u :: u in rest ==> Worthwhile(u, d, rate, script)
    ensures CeilAt(EstimateVsize(n + |rest|, 1, memoLen, script), rate) + Debt(d, ParentOfEach(rest))
         <= CeilAt(EstimateVsize(n, 1, memoLen, script), rate) + Total(rest)
    decreases |rest|
  {
    if rest != [] {
      var u, more, ps := rest[0], rest[1..], ParentOfEach(rest[1..]);
      assert u in rest;
      RestPays(n + 1, more, d, rate, memoLen, script);
      OneMoreInput(n, rate, memoLen, script);
      if u.confirmed {
        assert ParentOfEach(rest) == [] + ps == ps;
      } else {
        assert ParentOfEach(rest) == [u.txid] + ps && ([u.txid] + ps)[1..] == ps;
      }
      assert n + 1 + |more| == n + |rest|;
    }
  }

  lemma OneMoreInput(n: nat, rate: Rate, memoLen: nat, script: ScriptParams)
    ensures CeilAt(EstimateVsize(n + 1, 1, memoLen, script), rate)
         <= CeilAt(EstimateVsize(n, 1, memoLen, script), rate) + CeilAt(script.inputVb, rate)
  {
    Distribute(n, 1, script.inputVb);
    assert EstimateVsize(n + 1, 1, memoLen, script) == EstimateVsize(n, 1, memoLen, script) + script.inputVb;
    CeilAtSum(EstimateVsize(n, 1, memoLen, script), script.inputVb, rate);
  }

  /** What is left of a pool when a choice is taken out. */
  lemma {:induction false} Remainder(us: seq<Utxo>, sub: seq<Utxo>) returns (rest: seq<Utxo>)
    requires multiset(sub) <= multiset(us)
    ensures multiset(us) == multiset(sub) + multiset(rest) && |us| == |sub| + |rest|
    ensures Total(us) == Total(sub) + Total(rest)
    decreases |sub|
  {
    if sub == [] {
      rest := us;
    } else {
      assert sub[0] in multiset(sub) && sub == [sub[0]] + sub[1..];
      assert sub[0] in us by { assert sub[0] in multiset(us); }
      var x, others := TakeOut(us, sub[0]);
      TailFits(us, others, sub);
      rest := Remainder(others, sub[1..]);
    }
  }

  lemma TailFits(us: seq<Utxo>, others: seq<Utxo>, sub: seq<Utxo>)
    requires sub != [] && multiset(sub) <= multiset(us) && multiset(us) == multiset(others) + multiset{sub[0]}
    ensures multiset(sub[1..]) <= multiset(others)
  {
    assert sub == [sub[0]] + sub[1..];
    var all, left, tail := multiset(sub), multiset(others), multiset(sub[1..]);
    forall u ensures tail[u] <= left[u] {
      assert all[u] == tail[u] + multiset{sub[0]}[u] && all[u] <= multiset(us)[u];
    }
  }

  lemma RateChangeCosts(rate: Rate, memoLen: nat, script: ScriptParams)
    requires rate.num >= 0
    ensures ChangeCosts(RateFee(rate, memoLen, script))
  {
    forall us: seq<Utxo> ensures RateFee(rate, memoLen, script)(us, 1) <= RateFee(rate, memoLen, script)(us, 2) {
      CeilAtMono(EstimateVsize(|us|, 1, memoLen, script), EstimateVsize(|us|, 2, memoLen, script), rate);
    }
  }

  lemma SameCoins(a: seq<Utxo>, b: seq<Utxo>)
    requires multiset(a) == multiset(b)
    ensures forall u :: u in a <==> u in b
  {
    forall u ensures u in a <==> u in b {
      assert u in a <==> u in multiset(a);
    }
  }

  /** The bookkeeping: coins that bring at least what they add to the fee. */
  lemma NetsMore(pool: seq<Utxo>, sub: seq<Utxo>, rest: seq<Utxo>, d: string -> nat, rate: Rate, memoLen: nat,
                 script: ScriptParams)
    requires |pool| == |sub| + |rest| && Total(pool) == Total(sub) + Total(rest)
    requires CpfpSurcharge(pool) <= CpfpSurcharge(sub) + Debt(d, ParentOfEach(rest))
    requires CeilAt(EstimateVsize(|sub| + |rest|, 1, memoLen, script), rate) + Debt(d, ParentOfEach(rest))
          <= CeilAt(EstimateVsize(|sub|, 1, memoLen, script), rate) + Total(rest)
    ensures Nets(sub, RateFee(rate, memoLen, script)) <= Nets(pool, RateFee(rate, memoLen, script))
  {
  }

  lemma RestInPool(pool: seq<Utxo>, sub: seq<Utxo>, rest: seq<Utxo>)
    requires multiset(pool) == multiset(sub) + multiset(rest)
    ensures forall u :: u in rest ==> u in pool
  {
    forall u | u in rest ensures u in pool {
      assert u in multiset(rest) && u in multiset(pool);
    }
  }

  /** A pool of coins that pay for themselves nets at least as much as any choice from it. */
  lemma ChoiceNetsLess(pool: seq<Utxo>, sub: seq<Utxo>, d: string -> nat, rate: Rate, memoLen: nat,
                       script: ScriptParams)
    requires multiset(sub) <= multiset(pool) && Listed(pool, d)
    requires forall u :: u in pool ==> Worthwhile(u, d, rate, script)
    ensures Nets(sub, RateFee(rate, memoLen, script)) <= Nets(pool, RateFee(rate, memoLen, script))
  {
    var rest := Remainder(pool, sub);
    RestInPool(pool, sub, rest);
    SurchargeGrows(pool, sub, rest, d);
    RestPays(|sub|, rest, d, rate, memoLen, script);
    NetsMore(pool, sub, rest, d, rate, memoLen, script);
  }

  lemma WholeIsBest(us: seq<Utxo>, d: string -> nat, rate: Rate, memoLen: nat, script: ScriptParams)
    requires us != [] && Listed(us, d) && forall u :: u in us ==> Worthwhile(u, d, rate, script)
    ensures NoChoiceBeats(us, |us|, RateFee(rate, memoLen, script))
  {
    var fee, pool := RateFee(rate, memoLen, script), Ordered(us);
    SortMultiset(us, TakenBefore);
    SameCoins(pool, us);
    assert pool[..|us|] == pool;
    forall sub | Choice(sub, us) ensures Nets(sub, fee) <= Nets(pool, fee) {
      ChoiceNetsLess(pool, sub, d, rate, memoLen, script);
    }
  }

  /**
   * With every coin worth its own input and its parent's deficit, `select_coins`
   * succeeds on any pool exactly when some choice of its coins covers the
   * amount and its own no-change fee, surcharge included.
   */
  lemma SelectComplete(us: seq<Utxo>, send: int, d: string -> nat, rate: Rate, memoLen: nat, script: ScriptParams)
    requires rate.num >= 0 && script.dust >= 0 && Listed(us, d)
    requires forall u :: u in us ==> Worthwhile(u, d, rate, script)
    ensures Select(us, send, script.dust, RateFee(rate, memoLen, script)).Ok? <==>
            exists sub :: sub != [] && multiset(sub) <= multiset(us)
                          && Total(sub) >= send + RateFee(rate, memoLen, script)(sub, 1)
  {
    var fee := RateFee(rate, memoLen, script);
    if us == [] {
      forall sub: seq<Utxo> | multiset(sub) <= multiset(us) ensures sub == [] {
        assert |multiset(sub)| == |sub|;
      }
    } else {
      RateChangeCosts(rate, memoLen, script);
      WholeIsBest(us, d, rate, memoLen, script);
      CompleteAt(us, send, script.dust, fee, |us|);
      if sub :| sub != [] && multiset(sub) <= multiset(us) && Total(sub) >= send + fee(sub, 1) {
        assert Choice(sub, us) && Nets(sub, fee) >= send;
      }
    }
  }

  /** What each parent lacks at a rate, by what the chain says about it. */
  function PriceList(lookup: Lookup, rate: Rate): string -> nat {
    (p: string) => if lookup(p).Some? then KnownDeficit(lookup(p).value, rate) else 0
  }

  /** Coins priced by `cpfp_deficits` are priced from one list. */
  lemma PricedIsListed(us: seq<Utxo>, lookup: Lookup, rate: Rate)
    requires PricedAt(us, lookup, rate)
    ensures Listed(us, PriceList(lookup, rate))
  {
    forall u | u in us && !u.confirmed
      ensures lookup(u.txid).Some? && u.ancestorDeficit == KnownDeficit(lookup(u.txid).value, rate)
    {
      var i :| 0 <= i < |us| && us[i] == u;
    }
  }

  // --- where it can fail ----------------------------------------------------

  lemma OrderedTwo(first: Utxo, second: Utxo)
    requires !TakenBefore(second, first)
    ensures Ordered([second, first]) == [first, second]
  {
    assert [second, first][1..] == [first] && [first][1..] == [];
    assert Sort([], TakenBefore) == [] && Insert(first, [], TakenBefore) == [first] == Sort([first], TakenBefore);
    assert Insert(second, [], TakenBefore) == [second];
    assert Ordered([second, first]) == Insert(second, [first], TakenBefore) == [first] + [second];
  }

  lemma TotalOfTwo(a: Utxo, b: Utxo)
    ensures Total([a]) == a.value && Total([a, b]) == a.value + b.value
  {
    assert [a][1..] == [] && [b][1..] == [] && [a, b][1..] == [b];
    assert Total([b]) == b.value;
  }

  lemma ParentOfOne(a: Utxo)
    ensures Parents([a]) == if a.confirmed then [] else [a.txid]
  {
    assert [a][..0] == [] && Parents([]) == [] && [] + [a.txid] == [a.txid];
  }

  lemma OneDeficit(us: seq<Utxo>, p: string)
    ensures SumDeficits(us, [p]) == DeficitOf(us, p)
  {
    assert [p][1..] == [];
  }

  lemma SurchargeOfOne(a: Utxo)
    ensures CpfpSurcharge([a]) == if a.confirmed then 0 else a.ancestorDeficit
  {
    ParentOfOne(a);
    OneDeficit([a], a.txid);
  }

  lemma SurchargeOfTwo(a: Utxo, b: Utxo)
    requires a.txid != b.txid
    ensures CpfpSurcharge([a, b]) == CpfpSurcharge([a]) + CpfpSurcharge([b])
  {
    SurchargeOfOne(a);
    SurchargeOfOne(b);
    ParentOfOne(a);
    assert [a, b][..1] == [a] && [a, b][1] == b;
    var own, next := Parents([a]), if b.confirmed then [] else [b.txid];
    assert Parents([a, b]) == own + next by {
      if b.confirmed { assert own + [] == own; }
    }
    assert !a.confirmed ==> DeficitOf([a, b], a.txid) == DeficitOf([a], a.txid);
    OneDeficit([a, b], b.txid);
    OneDeficit([a, b], a.txid);
    if !a.confirmed && !b.confirmed {
      assert own + next == [a.txid, b.txid] && [a.txid, b.txid][1..] == [b.txid];
    } else if a.confirmed {
      assert own + next == next;
    } else {
      assert own + next == own;
    }
  }

  /** Two coins, neither of which nets the amount first or with the other behind it. */
  lemma TwoFail(first: Utxo, second: Utxo, send: int, rate: Rate, memoLen: nat, script: ScriptParams)
    requires first.txid != second.txid && !TakenBefore(second, first) && rate.num >= 0 && script.dust >= 0
    requires Nets([first], RateFee(rate, memoLen, script)) < send
    requires Nets([first, second], RateFee(rate, memoLen, script)) < send
    ensures Select([second, first], send, script.dust, RateFee(rate, memoLen, script)).Err?
  {
    OrderedTwo(first, second);
    RateChangeCosts(rate, memoLen, script);
    SelectByPrefix([second, first], send, script.dust, RateFee(rate, memoLen, script));
    assert [first, second][..1] == [first] && [first, second][..2] == [first, second];
  }

  lemma NetsOfTwo(a: Utxo, b: Utxo, rate: Rate, memoLen: nat, script: ScriptParams)
    requires a.txid != b.txid
    ensures var one, two := CeilAt(EstimateVsize(1, 1, memoLen, script), rate),
                            CeilAt(EstimateVsize(2, 1, memoLen, script), rate);
            var fee, x, y := RateFee(rate, memoLen, script), CpfpSurcharge([a]), CpfpSurcharge([b]);
            && x == (if a.confirmed then 0 else a.ancestorDeficit)
            && y == (if b.confirmed then 0 else b.ancestorDeficit)
            && Nets([a], fee) == a.value - one - x && Nets([b], fee) == b.value - one - y
            && Nets([a, b], fee) == a.value + b.value - two - x - y
  {
    SurchargeOfOne(a);
    SurchargeOfOne(b);
    SurchargeOfTwo(a, b);
    TotalOfTwo(a, b);
    TotalOfTwo(b, a);
  }

  /**
   * An unconfirmed coin with a dear parent comes first because it is larger:
   * the smaller would do for 500 at 1 sat/vB, and selection fails.
   */
  lemma DearParentFirst()
    ensures var dear := Utxo("a", 0, 1_000, "own", None, false, 10_000);
            var cheap := Utxo("b", 0, 900, "own", None, false, 0);
            var fee := RateFee(Fraction(1, 1), 0, P2WPKH);
            Nets([cheap], fee) >= 500 && Select([cheap, dear], 500, P2WPKH.dust, fee).Err?
  {
    var dear, cheap := Utxo("a", 0, 1_000, "own", None, false, 10_000), Utxo("b", 0, 900, "own", None, false, 0);
    NetsOfTwo(dear, cheap, Fraction(1, 1), 0, P2WPKH);
    TwoFail(dear, cheap, 500, Fraction(1, 1), 0, P2WPKH);
  }

  /**
   * A confirmed coin comes first though spending it costs more than it is
   * worth: the unconfirmed one, its parent well paid, would do for 89000 at
   * 100 sat/vB, and selection fails.
   */
  lemma CostlyConfirmedFirst()
    ensures var small := Utxo("a", 0, 1_000, "own", None, true, 0);
            var big := Utxo("b", 0, 100_000, "own", None, false, 0);
            var fee := RateFee(Fraction(100, 1), 0, P2WPKH);
            Nets([big], fee) >= 89_000 && Select([big, small], 89_000, P2WPKH.dust, fee).Err?
  {
    var small, big := Utxo("a", 0, 1_000, "own", None, true, 0), Utxo("b", 0, 100_000, "own", None, false, 0);
    NetsOfTwo(small, big, Fraction(100, 1), 0, P2WPKH);
    TwoFail(small, big, 89_000, Fraction(100, 1), 0, P2WPKH);
  }
}
