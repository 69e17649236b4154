/** Bumping a stuck transaction: planned once bare, then with what its own unconfirmed parents are owed. */
module Bump {
  import opened Chain
  import opened Coins
  import opened CoinsComplete
  import opened Common
  import opened Rates
  import opened Rbf

  /** The inputs, taken for unconfirmed until the chain says otherwise. */
  function Unpriced(us: seq<Utxo>): (r: seq<Utxo>)
    ensures |r| == |us| && forall i :: 0 <= i < |us| ==> r[i] == us[i].(confirmed := false, ancestorDeficit := 0)
  {
    seq(|us|, i requires 0 <= i < |us| => us[i].(confirmed := false, ancestorDeficit := 0))
  }

  predicate Known(ps: seq<string>, lookup: Lookup) { forall p :: p in ps ==> lookup(p).Some? }

  /** The transactions a replacement spends from, each once. */
  function Ancestors(inputs: seq<Utxo>): seq<string> { Parents(Unpriced(inputs)) }

  /** What they are owed at a rate. */
  function Owed(inputs: seq<Utxo>, lookup: Lookup, rate: Rate): nat {
    Debt(PriceList(lookup, rate), Ancestors(inputs))
  }

  function Bump(tx: TxSummary, t: Terms, lookup: Lookup): Result<Replacement, Refusal> {
    var bare :- Plan(tx, t.(extraFee := 0));
    if !Known(Ancestors(bare.inputs), lookup) then Err(UnpricedParent)
    else Plan(tx, t.(extraFee := Owed(bare.inputs, lookup, t.rate)))
  }

  lemma {:induction false} SameParents(a: seq<Utxo>, b: seq<Utxo>)
    requires |a| == |b|
    requires forall i :: 0 <= i < |a| ==> a[i] == b[i].(ancestorDeficit := a[i].ancestorDeficit)
    ensures Parents(a) == Parents(b)
  {
    if a != [] { SameParents(a[..|a| - 1], b[..|b| - 1]); }
  }

  lemma SurchargeIsOwed(us: seq<Utxo>, priced: seq<Utxo>, lookup: Lookup, rate: Rate)
    requires PricedAt(priced, lookup, rate) && |priced| == |us|
    requires forall i :: 0 <= i < |us| ==> priced[i] == us[i].(ancestorDeficit := priced[i].ancestorDeficit)
    ensures CpfpSurcharge(priced) == Debt(PriceList(lookup, rate), Parents(us))
  {
    SameParents(priced, us);
    PricedIsListed(priced, lookup, rate);
    SumIsDebt(priced, PriceList(lookup, rate), Parents(priced));
  }

  /** The planning of `cmd_bump`. */
  method PlanBump(tx: TxSummary, t: Terms, lookup: Lookup) returns (r: Result<Replacement, Refusal>)
    ensures r == Bump(tx, t, lookup)
  {
    var bare :- PlanReplacement(tx, t.(extraFee := 0));
    var priced, _ := CpfpDeficits(Unpriced(bare.inputs), lookup, t.rate);
    if priced.Err? {
      return Err(UnpricedParent);
    }
    SurchargeIsOwed(Unpriced(bare.inputs), priced.value, lookup, t.rate);
    var extraFee := CpfpSurcharge(priced.value);
    if extraFee != 0 {
      r := PlanReplacement(tx, t.(extraFee := extraFee));
    } else {
      r := Ok(bare);
    }
  }

  // --- what is owed ---------------------------------------------------------

  /** The transactions spent from are those of the inputs, each once. */
  lemma AncestorsMean(inputs: seq<Utxo>)
    ensures NoDup(Ancestors(inputs))
    ensures forall p :: p in Ancestors(inputs) <==> exists i :: 0 <= i < |inputs| && inputs[i].txid == p
  {
    var us := Unpriced(inputs);
    forall p ensures p in Ancestors(inputs) <==> exists i :: 0 <= i < |inputs| && inputs[i].txid == p {
      if i :| 0 <= i < |inputs| && inputs[i].txid == p { assert !us[i].confirmed && us[i].txid == p; }
      if i :| 0 <= i < |us| && !us[i].confirmed && us[i].txid == p { assert inputs[i].txid == p; }
    }
  }

  function Sum(ds: seq<int>): int { if ds == [] then 0 else ds[0] + Sum(ds[1..]) }

  /** What each of these transactions lacks. */
  ghost predicate Lacking(ds: seq<int>, ps: seq<string>, lookup: Lookup, rate: Rate) {
    |ds| == |ps| && forall k :: 0 <= k < |ps| ==>
      lookup(ps[k]).Some? && Owes(ds[k], lookup(ps[k]).value, rate)
  }

  lemma {:induction false} DebtIsSum(ps: seq<string>, lookup: Lookup, rate: Rate) returns (ds: seq<int>)
    requires Known(ps, lookup)
    ensures Lacking(ds, ps, lookup, rate) && Debt(PriceList(lookup, rate), ps) == Sum(ds)
  {
    if ps == [] {
      ds := [];
    } else {
      assert ps[0] in ps;
      var rest := DebtIsSum(ps[1..], lookup, rate);
      KnownDeficitMeans(lookup(ps[0]).value, rate);
      ds := [KnownDeficit(lookup(ps[0]).value, rate)] + rest;
      assert ds[1..] == rest;
    }
  }

  /**
   * A bump is the plan with what the transactions it spends from lack, each
   * counted once: nothing for a mined one, and for any other the least that
   * brings it to the rate. An ancestor nobody knows is refused.
   */
  lemma BumpCharges(tx: TxSummary, t: Terms, lookup: Lookup)
    requires Plan(tx, t.(extraFee := 0)).Ok?
    ensures var ancestors := Ancestors(Plan(tx, t.(extraFee := 0)).value.inputs);
            && ((exists p :: p in ancestors && lookup(p).None?) ==> Bump(tx, t, lookup) == Err(UnpricedParent))
            && ((forall p :: p in ancestors ==> lookup(p).Some?) ==>
                  exists ds :: Lacking(ds, ancestors, lookup, t.rate) && Sum(ds) >= 0
                               && Bump(tx, t, lookup) == Plan(tx, t.(extraFee := Sum(ds))))
  {
    var ancestors := Ancestors(Plan(tx, t.(extraFee := 0)).value.inputs);
    if forall p :: p in ancestors ==> lookup(p).Some? {
      var ds := DebtIsSum(ancestors, lookup, t.rate);
      assert Lacking(ds, ancestors, lookup, t.rate) && Sum(ds) >= 0;
    }
  }

  lemma {:induction false} NoneLacking(ds: seq<int>, ps: seq<string>, lookup: Lookup, rate: Rate)
    requires Lacking(ds, ps, lookup, rate) && forall p :: p in ps ==> lookup(p).Some? && lookup(p).value.confirmed
    ensures Sum(ds) == 0
  {
    if ds != [] {
      assert ps[0] in ps && Owes(ds[0], lookup(ps[0]).value, rate);
      NoneLacking(ds[1..], ps[1..], lookup, rate);
    }
  }

  /** If every transaction the inputs come from is mined, a bump is the bare plan. */
  lemma MinedParentsCostNothing(tx: TxSummary, t: Terms, lookup: Lookup)
    requires var bare := Plan(tx, t.(extraFee := 0));
             bare.Ok? ==> forall i :: 0 <= i < |bare.value.inputs| ==>
               lookup(bare.value.inputs[i].txid).Some? && lookup(bare.value.inputs[i].txid).value.confirmed
    ensures Bump(tx, t, lookup) == Plan(tx, t.(extraFee := 0))
  {
    var bare := Plan(tx, t.(extraFee := 0));
    if bare.Ok? {
      var ancestors := Ancestors(bare.value.inputs);
      AncestorsMean(bare.value.inputs);
      forall p | p in ancestors ensures lookup(p).Some? && lookup(p).value.confirmed {
        var i :| 0 <= i < |bare.value.inputs| && bare.value.inputs[i].txid == p;
      }
      var ds := DebtIsSum(ancestors, lookup, t.rate);
      NoneLacking(ds, ancestors, lookup, t.rate);
    }
  }

  // --- running it again at the rate a refusal names -----------------------------

  /** The parents' sizes are sizes. */
  ghost predicate RealSizes(lookup: Lookup) { forall p :: lookup(p).Some? ==> lookup(p).value.vsize >= 0 }

  lemma {:induction false} DebtMono(lookup: Lookup, ps: seq<string>, r: Rate, s: Rate)
    requires AtMost(r, s) && RealSizes(lookup)
    ensures Debt(PriceList(lookup, r), ps) <= Debt(PriceList(lookup, s), ps)
  {
    if ps != [] {
      DebtMono(lookup, ps[1..], r, s);
      if lookup(ps[0]).Some? {
        DeficitMono(lookup(ps[0]).value.fee, lookup(ps[0]).value.vsize, r, s);
      }
    }
  }

  /** The rate a refusal names is below the one refused. */
  lemma NamedIsBelow(tx: TxSummary, t: Terms)
    requires Plan(tx, t).Err? && Plan(tx, t).error.TooLittleChange? && Plan(tx, t).error.bestRate.Some?
    ensures var k := Plan(tx, t).error.bestRate.value;
            k * t.rate.den < 100 * t.rate.num && AtMost(Fraction(k, 100), t.rate)
  {
    var s := RefusedWith(tx, t);
    var k := Plan(tx, t).error.bestRate.value;
    NamedRateIsBest(tx, t);
    AcceptedExactlyWhen(tx, t);
    var room := Ceiling(tx, s, t.script) - t.extraFee;
    NamedFits(tx.vsize, room, k);
    BelowRate(tx.vsize, room, k, t.rate);
  }

  lemma BelowRate(vsize: nat, room: int, k: int, rate: Rate)
    requires vsize > 0 && vsize * k <= room * 100 && vsize * rate.num > room * rate.den
    ensures k * rate.den < 100 * rate.num
  {
    Scale(vsize * k, room * 100, rate.den);
    var x, y := k * rate.den, 100 * rate.num;
    assert (vsize * k) * rate.den == vsize * x;
    assert (room * 100) * rate.den == 100 * (room * rate.den) < 100 * (vsize * rate.num) == vsize * y;
    if x >= y { Scale(y, x, vsize); }
  }

  /** The same transaction has the same inputs, whatever it is planned at. */
  lemma SameInputsPlanned(tx: TxSummary, t: Terms, rate: Rate, extraFee: int)
    requires Plan(tx, t).Ok? && Plan(tx, t.(rate := rate, extraFee := extraFee)).Ok?
    ensures Plan(tx, t.(rate := rate, extraFee := extraFee)).value.inputs == Plan(tx, t).value.inputs
  {
  }

  /**
   * After a refusal that priced the parents, running again at the rate it names
   * succeeds: the rate is lower, so no more is owed.
   */
  lemma RerunAfterPricing(tx: TxSummary, t: Terms, lookup: Lookup)
    requires RealSizes(lookup) && Plan(tx, t.(extraFee := 0)).Ok?
    requires Bump(tx, t, lookup).Err? && Bump(tx, t, lookup).error.TooLittleChange?
    requires Bump(tx, t, lookup).error.bestRate.Some?
    ensures var named := Fraction(Bump(tx, t, lookup).error.bestRate.value, 100);
            AtMost(named, t.rate) && Bump(tx, t.(rate := named), lookup).Ok?
  {
    var bare := Plan(tx, t.(extraFee := 0)).value;
    var owed := Owed(bare.inputs, lookup, t.rate);
    var full := t.(extraFee := owed);
    var named := Fraction(Bump(tx, t, lookup).error.bestRate.value, 100);
    NamedIsBelow(tx, full);
    var less := Owed(bare.inputs, lookup, named);
    DebtMono(lookup, Ancestors(bare.inputs), named, t.rate);
    NamedRateWorks(tx, full, 0);
    NamedRateWorks(tx, full, less);
    SameInputsPlanned(tx, t.(extraFee := 0), named, 0);
  }

  /**
   * After a refusal of the bare plan, the rate it names leaves room for itself
   * but may leave none for the parents: running again at it succeeds exactly
   * when what they are owed at that rate fits too.
   */
  lemma RerunAfterPlan(tx: TxSummary, t: Terms, lookup: Lookup) returns (s: Shape)
    requires var bare := Plan(tx, t.(extraFee := 0));
             bare.Err? && bare.error.TooLittleChange? && bare.error.bestRate.Some?
    ensures ShapeOf(tx, t.owned, t.changePrefix, t.script) == Ok(s)
    ensures var k := Plan(tx, t.(extraFee := 0)).error.bestRate.value;
            var owed := Owed(s.inputs, lookup, Fraction(k, 100));
            && Plan(tx, t.(rate := Fraction(k, 100), extraFee := 0)).Ok?
            && (Known(Ancestors(s.inputs), lookup) ==>
                  (Bump(tx, t.(rate := Fraction(k, 100)), lookup).Ok? <==>
                   tx.vsize * k <= (Ceiling(tx, s, t.script) - owed) * 100))
  {
    var bare := t.(extraFee := 0);
    s := RefusedWith(tx, bare);
    var k := Plan(tx, bare).error.bestRate.value;
    NamedRateWorks(tx, bare, 0);
    HundredthsAccepted(tx, bare, s, k, Owed(s.inputs, lookup, Fraction(k, 100)));
  }

  /** However the first run was refused, running again at the rates named settles it by the third run. */
  lemma ThirdRunSettles(tx: TxSummary, t: Terms, lookup: Lookup)
    requires RealSizes(lookup) && Bump(tx, t, lookup).Err? && Bump(tx, t, lookup).error.TooLittleChange?
    requires Bump(tx, t, lookup).error.bestRate.Some?
    ensures var again := t.(rate := Fraction(Bump(tx, t, lookup).error.bestRate.value, 100));
            var second := Bump(tx, again, lookup);
            second.Err? && second.error.TooLittleChange? && second.error.bestRate.Some? ==>
              Bump(tx, again.(rate := Fraction(second.error.bestRate.value, 100)), lookup).Ok?
  {
    var again := t.(rate := Fraction(Bump(tx, t, lookup).error.bestRate.value, 100));
    var second := Bump(tx, again, lookup);
    if Plan(tx, t.(extraFee := 0)).Ok? {
      RerunAfterPricing(tx, t, lookup);
    } else {
      var _ := RerunAfterPlan(tx, t, lookup);
      if second.Err? && second.error.TooLittleChange? && second.error.bestRate.Some? {
        RerunAfterPricing(tx, again, lookup);
      }
    }
  }

  // --- a rate named that is refused again ---------------------------------------

  /** One unconfirmed parent of 200 vB that paid 5000. */
  function PoorParent(): Lookup { (p: string) => if p == "parent" then Some(Parent(false, 5_000, 200)) else None }

  lemma OwedToOne(u: Utxo, lookup: Lookup, rate: Rate)
    ensures Ancestors([u]) == [u.txid] && Owed([u], lookup, rate) == PriceList(lookup, rate)(u.txid)
  {
    assert Unpriced([u]) == [u.(confirmed := false, ancestorDeficit := 0)];
    ParentOfOne(u.(confirmed := false, ancestorDeficit := 0));
    DebtOfOne(PriceList(lookup, rate), u.txid);
  }

  lemma DebtOfOne(d: string -> nat, p: string)
    ensures Debt(d, [p]) == d(p)
  {
    assert [p][1..] == [];
    assert Debt(d, [p]) == d([p][0]) + Debt(d, []);
  }

  /** A plan that leaves the relay floor alone, by what the rate and the surcharge come to. */
  lemma PlanAt(tx: TxSummary, t: Terms, s: Shape, ceiling: int, rate: Rate, extraFee: nat)
    requires ShapeOf(tx, t.owned, t.changePrefix, t.script) == Ok(s) && s.changeIndex < |tx.outputs|
    requires ceiling == Ceiling(tx, s, t.script) && Floor(tx, s, t) <= ceiling && tx.vsize > 0
    ensures var r := Plan(tx, t.(rate := rate, extraFee := extraFee));
            && (r.Ok? <==> tx.vsize * rate.num <= (ceiling - extraFee) * rate.den)
            && (r.Ok? ==> r.value.inputs == s.inputs)
            && (r.Err? && extraFee <= ceiling ==>
                  r == Err(TooLittleChange(Some(FloorDiv((ceiling - extraFee) * 100, tx.vsize)))))
  {
    var u := t.(rate := rate, extraFee := extraFee);
    assert Floor(tx, s, u) == Floor(tx, s, t);
    AcceptedExactlyWhen(tx, u);
  }

  /** A run whose bare plan is accepted is the plan with what its one parent is owed. */
  lemma RunAt(tx: TxSummary, t: Terms, u: Utxo, lookup: Lookup, rate: Rate, owed: nat)
    requires var bare := Plan(tx, t.(rate := rate, extraFee := 0)); bare.Ok? && bare.value.inputs == [u]
    requires lookup(u.txid).Some? && owed == KnownDeficit(lookup(u.txid).value, rate)
    ensures Bump(tx, t.(rate := rate), lookup) == Plan(tx, t.(rate := rate, extraFee := owed))
  {
    OwedToOne(u, lookup, rate);
  }

  /** The shape of the stuck transaction, in numbers. */
  ghost predicate StuckAs(tx: TxSummary, t: Terms, s: Shape, lookup: Lookup) {
    && ShapeOf(tx, t.owned, t.changePrefix, t.script) == Ok(s) && s.changeIndex < |tx.outputs|
    && Ceiling(tx, s, t.script) == 9_706 && Floor(tx, s, t) == 300 && tx.vsize == 200 && t.rate == Fraction(100, 1)
    && |s.inputs| == 1 && lookup(s.inputs[0].txid) == Some(Parent(false, 5_000, 200))
  }

  lemma FirstRun(tx: TxSummary, t: Terms, s: Shape, lookup: Lookup)
    requires StuckAs(tx, t, s, lookup)
    ensures Bump(tx, t, lookup) == Err(TooLittleChange(Some(4853)))
  {
    PlanAt(tx, t, s, 9_706, t.rate, 0);
  }

  lemma OwedAtNamed()
    ensures KnownDeficit(Parent(false, 5_000, 200), Fraction(4853, 100)) == 4_706
  {
  }

  lemma SecondRun(tx: TxSummary, t: Terms, s: Shape, lookup: Lookup, rate: Rate, owed: nat)
    requires StuckAs(tx, t, s, lookup) && rate.num == 4853 && rate.den == 100 && owed == 4_706
    requires KnownDeficit(lookup(s.inputs[0].txid).value, rate) == owed
    ensures Bump(tx, t.(rate := rate), lookup) == Err(TooLittleChange(Some(2500)))
  {
    SecondPlans(tx, t, s, lookup, rate, owed);
    assert s.inputs == [s.inputs[0]];
    RunAt(tx, t, s.inputs[0], lookup, rate, owed);
  }

  lemma SecondPlans(tx: TxSummary, t: Terms, s: Shape, lookup: Lookup, rate: Rate, owed: nat)
    requires StuckAs(tx, t, s, lookup) && rate.num == 4853 && rate.den == 100 && owed == 4_706
    ensures var bare := Plan(tx, t.(rate := rate, extraFee := 0)); bare.Ok? && bare.value.inputs == s.inputs
    ensures Plan(tx, t.(rate := rate, extraFee := owed)) == Err(TooLittleChange(Some(2500)))
  {
    PlanAt(tx, t, s, 9_706, rate, 0);
    PlanAt(tx, t, s, 9_706, rate, owed);
  }

  lemma ThirdRun(tx: TxSummary, t: Terms, s: Shape, lookup: Lookup)
    requires StuckAs(tx, t, s, lookup)
    ensures Bump(tx, t.(rate := Fraction(2500, 100)), lookup).Ok?
  {
    PlanAt(tx, t, s, 9_706, Fraction(2500, 100), 0);
    assert s.inputs == [s.inputs[0]];
    RunAt(tx, t, s.inputs[0], lookup, Fraction(2500, 100), 0);
  }

  /**
   * At 100 sat/vB the bare plan is refused with 48.53 named; at 48.53 the parent
   * is owed 4706 that no longer fit, and the refusal names 25.00; at 25.00
   * nothing is owed and the bump is planned.
   */
  lemma NamedRateRefusedAgain()
    ensures var tx, t, lookup := StuckTx(), StuckTerms(), PoorParent();
            && Bump(tx, t, lookup) == Err(TooLittleChange(Some(4853)))
            && Bump(tx, t.(rate := Fraction(4853, 100)), lookup) == Err(TooLittleChange(Some(2500)))
            && Bump(tx, t.(rate := Fraction(2500, 100)), lookup).Ok?
  {
    var tx, t, lookup := StuckTx(), StuckTerms(), PoorParent();
    var s := StuckShape(tx, t);
    FirstRun(tx, t, s, lookup);
    OwedAtNamed();
    SecondRun(tx, t, s, lookup, Fraction(4853, 100), 4_706);
    ThirdRun(tx, t, s, lookup);
  }
}
