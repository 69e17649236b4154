/** Planning a BIP125 fee-bump replacement. */
module Rbf {
  import opened Common
  import opened Rates
  import opened Coins
  import opened Chain

  datatype Refusal =
    | AlreadyConfirmed | NotSignalling
    | MissingOutpoint | NotOurs | NoInputs
    | NoChange | AmbiguousChange
    | SeveralMemos | UnreadableMemo | NotOneRecipient
    | UnpricedParent
    | TooLittleChange(bestRate: Option<int>)  // the rate named, in hundredths of a sat/vB

  datatype Replacement = Replacement(inputs: seq<Utxo>, outputs: seq<TxOutput>, fee: int, oldFee: int, vsize: nat,
                                     changeIndex: nat, changeAddress: string, recipient: string, amount: int,
                                     memo: Option<seq<byte>>)

  /** What a bump is planned with, besides the transaction. */
  datatype Terms = Terms(owned: map<string, string>, changePrefix: string, rate: Rate, extraFee: int,
                         script: ScriptParams, incremental: Rate)

  /** The fee that reaches the rate and still relays. */
  function ReplacementFee(oldFee: int, vsize: nat, rate: Rate, extraFee: int, replacementVsize: nat,
                          incremental: Rate): int {
    Max(CeilAt(vsize, rate) + extraFee, oldFee + CeilAt(replacementVsize, incremental))
  }

  // --- inputs -------------------------------------------------------------

  function InputWithPath(e: TxEntry, owned: map<string, string>): Result<Utxo, Refusal> {
    if e.txid.None? || e.vout.None? then Err(MissingOutpoint)
    else if OrEmpty(e.address) !in owned then Err(NotOurs)
    else Ok(Utxo(e.txid.value, e.vout.value, e.value, OrEmpty(e.address), Some(owned[OrEmpty(e.address)]), true, 0))
  }

  function Inputs(es: seq<TxEntry>, owned: map<string, string>): (r: Result<seq<Utxo>, Refusal>)
    ensures r.Err? ==> !r.error.TooLittleChange?
  {
    if es == [] then Ok([])
    else
      var first := InputWithPath(es[0], owned);
      if first.Err? then Err(first.error)
      else
        var rest := Inputs(es[1..], owned);
        if rest.Err? then rest else Ok([first.value] + rest.value)
  }

  /** An input re-spent: its own outpoint and value, from its own address, at the path that address is owned under. */
  ghost predicate Respent1(e: TxEntry, u: Utxo, owned: map<string, string>) {
    && e.txid == Some(u.txid) && e.vout == Some(u.vout) && e.value == u.value
    && u.address == (if e.address.Some? then e.address.value else "")
    && u.address in owned && u.path == Some(owned[u.address])
    && u.confirmed && u.ancestorDeficit == 0
  }

  ghost predicate Respends(es: seq<TxEntry>, us: seq<Utxo>, owned: map<string, string>) {
    |us| == |es| && forall k :: 0 <= k < |es| ==> Respent1(es[k], us[k], owned)
  }

  /** Inputs are rebuilt exactly as they were, when each has its outpoint and an owned address. */
  lemma {:induction false} InputsMean(es: seq<TxEntry>, us: seq<Utxo>, owned: map<string, string>)
    ensures Inputs(es, owned) == Ok(us) <==> Respends(es, us, owned)
  {
    if es != [] && us != [] {
      InputsMean(es[1..], us[1..], owned);
      assert es == [es[0]] + es[1..] && us == [us[0]] + us[1..];
      assert Respent1(es[0], us[0], owned) <==> InputWithPath(es[0], owned) == Ok(us[0]);
    }
  }

  /** The inputs to re-spend; there must be some. */
  function Respent(tx: TxSummary, owned: map<string, string>): (r: Result<seq<Utxo>, Refusal>)
    ensures r.Err? ==> !r.error.TooLittleChange?
  {
    if Inputs(tx.inputs, owned) == Ok([]) then Err(NoInputs) else Inputs(tx.inputs, owned)
  }

  function Prepend(us: seq<Utxo>, r: Result<seq<Utxo>, Refusal>): Result<seq<Utxo>, Refusal> {
    if r.Err? then r else Ok(us + r.value)
  }

  /** `_inputs_with_paths`. */
  method InputsWithPaths(tx: TxSummary, owned: map<string, string>) returns (r: Result<seq<Utxo>, Refusal>)
    ensures r == Respent(tx, owned)
  {
    var utxos: seq<Utxo> := [];
    assert tx.inputs[0..] == tx.inputs;
    PrependNothing(Inputs(tx.inputs, owned));
    for k := 0 to |tx.inputs|
      invariant Inputs(tx.inputs, owned) == Prepend(utxos, Inputs(tx.inputs[k..], owned))
    {
      var e := tx.inputs[k];
      assert tx.inputs[k..][0] == e && tx.inputs[k..][1..] == tx.inputs[k + 1..];
      if e.txid.None? || e.vout.None? {
        return Err(MissingOutpoint);
      }
      if OrEmpty(e.address) !in owned {
        return Err(NotOurs);
      }
      var utxo := Utxo(e.txid.value, e.vout.value, e.value, OrEmpty(e.address),
                       Some(owned[OrEmpty(e.address)]), true, 0);
      PrependOne(utxos, utxo, Inputs(tx.inputs[k + 1..], owned));
      utxos := utxos + [utxo];
    }
    assert tx.inputs[|tx.inputs|..] == [] && utxos + [] == utxos;
    if utxos == [] {
      return Err(NoInputs);
    }
    return Ok(utxos);
  }

  lemma PrependNothing(r: Result<seq<Utxo>, Refusal>)
    ensures Prepend([], r) == r
  {
    if r.Ok? { assert [] + r.value == r.value; }
  }

  lemma PrependOne(us: seq<Utxo>, u: Utxo, r: Result<seq<Utxo>, Refusal>)
    ensures Prepend(us, Prepend([u], r)) == Prepend(us + [u], r)
  {
    if r.Ok? { assert us + ([u] + r.value) == (us + [u]) + r.value; }
  }

  // --- which output is change ---------------------------------------------

  predicate PaysUs(o: TxEntry, owned: map<string, string>) {
    o.opReturnData.None? && !o.opReturn && o.address.Some? && o.address.value in owned
  }

  predicate OnChangeBranch(o: TxEntry, owned: map<string, string>, prefix: string) {
    PaysUs(o, owned) && prefix <= owned[o.address.value]
  }

  /** The indices, from `k` on, at which `p` holds. */
  function Where(es: seq<TxEntry>, p: (nat, TxEntry) -> bool, k: nat): (r: seq<nat>)
    ensures forall i :: i in r <==> k <= i < |es| && p(i, es[i])
    ensures NoDup(r)
    decreases |es| - k
  {
    if k >= |es| then []
    else (if p(k, es[k]) then [k] else []) + Where(es, p, k + 1)
  }

  function ChangeIndex(tx: TxSummary, owned: map<string, string>, prefix: string): (r: Result<nat, Refusal>)
    ensures r.Ok? ==> r.value < |tx.outputs| && PaysUs(tx.outputs[r.value], owned)
    ensures r.Err? ==> !r.error.TooLittleChange?
  {
    var ours := Where(tx.outputs, (i: nat, o: TxEntry) => PaysUs(o, owned), 0);
    if ours == [] then Err(NoChange)
    else if |ours| == 1 then assert ours[0] in ours; Ok(ours[0])
    else
      var internal := Where(tx.outputs, (i: nat, o: TxEntry) => OnChangeBranch(o, owned, prefix), 0);
      if |internal| != 1 then Err(AmbiguousChange)
      else assert internal[0] in internal; Ok(internal[0])
  }

  // --- the plan -----------------------------------------------------------

  /** Everything about the transaction the plan fixes before any rate is looked at. */
  datatype Shape = Shape(inputs: seq<Utxo>, changeIndex: nat, memo: Option<seq<byte>>, payee: nat,
                         replacementVsize: nat)

  /** The payload of the only OP_RETURN output, if there is one. */
  function MemoFound(tx: TxSummary): (r: Result<Option<seq<byte>>, Refusal>)
    ensures r.Err? ==> !r.error.TooLittleChange?
  {
    var memos := Where(tx.outputs, (i: nat, o: TxEntry) => o.opReturn, 0);
    if |memos| > 1 then Err(SeveralMemos)
    else if memos == [] then Ok(None)
    else
      assert memos[0] in memos;
      var data := tx.outputs[memos[0]].opReturnData;
      if data.None? then Err(UnreadableMemo) else Ok(data)
  }

  /** The only output besides the change and the memo. */
  function PayeeIndex(tx: TxSummary, change: nat): (r: Result<nat, Refusal>)
    ensures r.Ok? ==> r.value < |tx.outputs| && r.value != change
    ensures r.Err? ==> !r.error.TooLittleChange?
  {
    var payees := Where(tx.outputs, (i: nat, o: TxEntry) => i != change && !o.opReturn, 0);
    if |payees| != 1 then Err(NotOneRecipient) else assert payees[0] in payees; Ok(payees[0])
  }

  /** An upper bound on the replacement's own size. */
  function ReplacementVsize(tx: TxSummary, inputs: nat, memo: Option<seq<byte>>, script: ScriptParams): (r: nat)
    requires tx.outputs != []
    ensures r >= tx.vsize
  {
    Max(tx.vsize, EstimateVsize(inputs, |tx.outputs| - (if memo.Some? then 1 else 0),
                                if memo.Some? then |memo.value| else 0, script))
  }

  function ShapeOf(tx: TxSummary, owned: map<string, string>, prefix: string, script: ScriptParams)
    : (r: Result<Shape, Refusal>)
    ensures r.Ok? ==> r.value.changeIndex < |tx.outputs| && r.value.payee < |tx.outputs|
                      && r.value.payee != r.value.changeIndex && r.value.replacementVsize >= tx.vsize
    ensures r.Err? ==> !r.error.TooLittleChange?
  {
    if tx.confirmed then Err(AlreadyConfirmed)
    else if !SignalsRbf(tx) then Err(NotSignalling)
    else
      var inputs :- Respent(tx, owned);
      var change :- ChangeIndex(tx, owned, prefix);
      var memo :- MemoFound(tx);
      var payee :- PayeeIndex(tx, change);
      Ok(Shape(inputs, change, memo, payee, ReplacementVsize(tx, |inputs|, memo, script)))
  }

  // --- what a shape is ------------------------------------------------------

  /** Without data, to an address of ours. */
  ghost predicate Ours(o: TxEntry, owned: map<string, string>) {
    o.opReturnData == None && o.opReturn == false && o.address.Some? && o.address.value in owned
  }

  /** The only output of ours; or, of several, the only one whose path begins as the change branch does. */
  ghost predicate IsChange(os: seq<TxEntry>, owned: map<string, string>, prefix: string, c: nat) {
    && c < |os| && Ours(os[c], owned)
    && ((forall i :: 0 <= i < |os| && Ours(os[i], owned) ==> i == c)
        || (prefix <= owned[os[c].address.value]
            && forall i :: 0 <= i < |os| && Ours(os[i], owned) && prefix <= owned[os[i].address.value] ==> i == c))
  }

  /** No data output and no memo, or exactly one, whose data is the memo. */
  ghost predicate IsMemo(os: seq<TxEntry>, memo: Option<seq<byte>>) {
    if memo.None? then forall i :: 0 <= i < |os| ==> !os[i].opReturn
    else exists m :: 0 <= m < |os| && os[m].opReturn && os[m].opReturnData == memo
                     && forall i :: 0 <= i < |os| && os[i].opReturn ==> i == m
  }

  /** The only output besides the change and the data. */
  ghost predicate IsPayee(os: seq<TxEntry>, c: nat, payee: nat) {
    && payee < |os| && payee != c && !os[payee].opReturn
    && forall i :: 0 <= i < |os| && i != c && !os[i].opReturn ==> i == payee
  }

  /** The only index at which `p` holds. */
  ghost predicate Sole(es: seq<TxEntry>, p: (nat, TxEntry) -> bool, i: nat) {
    i < |es| && p(i, es[i]) && forall j :: 0 <= j < |es| && p(j, es[j]) ==> j == i
  }

  lemma OneElement(r: seq<nat>, i: nat)
    requires NoDup(r) && i in r && forall k :: k in r ==> k == i
    ensures r == [i]
  {
    var repeats := |r| > 1 && r[0] == r[1];
    forall k | 0 <= k < |r| ensures r[k] == i { assert r[k] in r; }
    assert |r| > 1 ==> repeats;
  }

  lemma WhereOne(es: seq<TxEntry>, p: (nat, TxEntry) -> bool, i: nat)
    ensures Where(es, p, 0) == [i] <==> Sole(es, p, i)
  {
    var r := Where(es, p, 0);
    if Sole(es, p, i) {
      OneElement(r, i);
    }
    if r == [i] {
      assert i in r;
      forall j | 0 <= j < |es| && p(j, es[j]) ensures j == i { assert j in r; }
    }
  }

  lemma ChangeMeans(tx: TxSummary, owned: map<string, string>, prefix: string, c: nat)
    ensures ChangeIndex(tx, owned, prefix) == Ok(c) <==> IsChange(tx.outputs, owned, prefix, c)
  {
    var os := tx.outputs;
    var pays := (i: nat, o: TxEntry) => PaysUs(o, owned);
    var internal := (i: nat, o: TxEntry) => OnChangeBranch(o, owned, prefix);
    ChangeFound(os, owned, prefix, c, pays, internal);
    var ours, inner := Where(os, pays, 0), Where(os, internal, 0);
    WhereOne(os, pays, c);
    WhereOne(os, internal, c);
    if |ours| == 1 { assert ours == [ours[0]]; }
    if |inner| == 1 { assert inner == [inner[0]]; }
    if Sole(os, internal, c) { assert c in ours; }
  }

  lemma ChangeFound(os: seq<TxEntry>, owned: map<string, string>, prefix: string, c: nat,
                    pays: (nat, TxEntry) -> bool, internal: (nat, TxEntry) -> bool)
    requires forall i, o :: pays(i, o) <==> PaysUs(o, owned)
    requires forall i, o :: internal(i, o) <==> OnChangeBranch(o, owned, prefix)
    ensures IsChange(os, owned, prefix, c) <==> Sole(os, pays, c) || Sole(os, internal, c)
  {
    assert forall i :: 0 <= i < |os| ==> (pays(i, os[i]) <==> Ours(os[i], owned));
    assert forall i :: 0 <= i < |os| ==>
      (internal(i, os[i]) <==> Ours(os[i], owned) && prefix <= owned[os[i].address.value]);
  }

  lemma MemoMeans(tx: TxSummary, memo: Option<seq<byte>>)
    ensures MemoFound(tx) == Ok(memo) <==> IsMemo(tx.outputs, memo)
  {
    var os := tx.outputs;
    var carries := (i: nat, o: TxEntry) => o.opReturn;
    var memos := Where(os, carries, 0);
    if memos == [] {
      forall i | 0 <= i < |os| ensures !os[i].opReturn { assert i in memos || !carries(i, os[i]); }
    } else {
      assert memos[0] in memos;
      var m := memos[0];
      WhereOne(os, carries, m);
      if |memos| == 1 { assert memos == [m]; }
      if k :| 0 <= k < |os| && os[k].opReturn && (forall i :: 0 <= i < |os| && os[i].opReturn ==> i == k) {
        WhereOne(os, carries, k);
      }
    }
  }

  lemma PayeeMeans(tx: TxSummary, c: nat, payee: nat)
    ensures PayeeIndex(tx, c) == Ok(payee) <==> IsPayee(tx.outputs, c, payee)
  {
    var other := (i: nat, o: TxEntry) => i != c && !o.opReturn;
    var payees := Where(tx.outputs, other, 0);
    WhereOne(tx.outputs, other, payee);
    if |payees| == 1 { assert payees == [payees[0]]; }
  }

  /**
   * A transaction can be planned for exactly when it is unconfirmed, some input
   * signals replacement, every input has its outpoint and an address of ours, and
   * its change, its memo if any and its one payee can be told apart; and then
   * the plan is made on exactly these.
   */
  lemma ShapeMeans(tx: TxSummary, owned: map<string, string>, prefix: string, script: ScriptParams, s: Shape)
    ensures ShapeOf(tx, owned, prefix, script) == Ok(s)
            <==> && !tx.confirmed
                 && (exists i :: 0 <= i < |tx.inputs| && tx.inputs[i].sequence.Some?
                                 && tx.inputs[i].sequence.value < 0xFFFF_FFFE)
                 && tx.inputs != [] && Respends(tx.inputs, s.inputs, owned)
                 && IsChange(tx.outputs, owned, prefix, s.changeIndex)
                 && IsMemo(tx.outputs, s.memo)
                 && IsPayee(tx.outputs, s.changeIndex, s.payee)
                 && s.replacementVsize == Max(tx.vsize,
                      EstimateVsize(|tx.inputs|, |tx.outputs| - (if s.memo.Some? then 1 else 0),
                                    if s.memo.Some? then |s.memo.value| else 0, script))
  {
    ShapeParts(tx, owned, prefix, script, s);
    PartsMean(tx, owned, prefix, script, s);
  }

  lemma RespentMeans(tx: TxSummary, us: seq<Utxo>, owned: map<string, string>)
    ensures Respent(tx, owned) == Ok(us) <==> tx.inputs != [] && Respends(tx.inputs, us, owned)
  {
    InputsMean(tx.inputs, us, owned);
    InputsMean(tx.inputs, [], owned);
  }

  /** A shape, part by part. */
  predicate IsMadeOf(tx: TxSummary, owned: map<string, string>, prefix: string, script: ScriptParams, s: Shape) {
    && !tx.confirmed && SignalsRbf(tx) && Respent(tx, owned) == Ok(s.inputs)
    && ChangeIndex(tx, owned, prefix) == Ok(s.changeIndex) && MemoFound(tx) == Ok(s.memo)
    && PayeeIndex(tx, s.changeIndex) == Ok(s.payee)
    && s.replacementVsize == ReplacementVsize(tx, |s.inputs|, s.memo, script)
  }

  lemma ShapeParts(tx: TxSummary, owned: map<string, string>, prefix: string, script: ScriptParams, s: Shape)
    ensures ShapeOf(tx, owned, prefix, script) == Ok(s) <==> IsMadeOf(tx, owned, prefix, script, s)
  {
  }

  lemma PartsMean(tx: TxSummary, owned: map<string, string>, prefix: string, script: ScriptParams, s: Shape)
    ensures IsMadeOf(tx, owned, prefix, script, s)
            <==> && !tx.confirmed && SignalsRbf(tx)
                 && tx.inputs != [] && Respends(tx.inputs, s.inputs, owned)
                 && IsChange(tx.outputs, owned, prefix, s.changeIndex)
                 && IsMemo(tx.outputs, s.memo)
                 && IsPayee(tx.outputs, s.changeIndex, s.payee)
                 && s.replacementVsize == Max(tx.vsize,
                      EstimateVsize(|tx.inputs|, |tx.outputs| - (if s.memo.Some? then 1 else 0),
                                    if s.memo.Some? then |s.memo.value| else 0, script))
  {
    RespentMeans(tx, s.inputs, owned);
    ChangeMeans(tx, owned, prefix, s.changeIndex);
    MemoMeans(tx, s.memo);
    PayeeMeans(tx, s.changeIndex, s.payee);
  }

  /** The largest fee the change can still pay for. */
  function Ceiling(tx: TxSummary, shape: Shape, script: ScriptParams): int
    requires shape.changeIndex < |tx.outputs|
  {
    tx.fee + (tx.outputs[shape.changeIndex].value - script.dust)
  }

  /** The least fee that relays at all. */
  function Floor(tx: TxSummary, shape: Shape, t: Terms): int {
    tx.fee + CeilAt(shape.replacementVsize, t.incremental)
  }

  /** `_too_little_change`: the best rate that fits, rounded down to hundredths, if any does. */
  function BestRate(tx: TxSummary, shape: Shape, t: Terms): Option<int>
    requires shape.changeIndex < |tx.outputs|
  {
    var ceiling := Ceiling(tx, shape, t.script);
    if t.extraFee > ceiling || Floor(tx, shape, t) > ceiling then None
    else if tx.vsize == 0 then Some(0)
    else Some(FloorDiv((ceiling - t.extraFee) * 100, tx.vsize))
  }

  function Neutral(o: TxEntry): TxOutput { TxOutput(o.address, o.value, o.opReturnData) }

  function Neutrals(es: seq<TxEntry>): (r: seq<TxOutput>)
    ensures |r| == |es| && forall i :: 0 <= i < |es| ==> r[i] == Neutral(es[i])
  {
    seq(|es|, i requires 0 <= i < |es| => Neutral(es[i]))
  }

  function FeeOf(tx: TxSummary, shape: Shape, t: Terms): int {
    ReplacementFee(tx.fee, tx.vsize, t.rate, t.extraFee, shape.replacementVsize, t.incremental)
  }

  function Plan(tx: TxSummary, t: Terms): Result<Replacement, Refusal> {
    var shape := ShapeOf(tx, t.owned, t.changePrefix, t.script);
    if shape.Err? then Err(shape.error)
    else
      var s := shape.value;
      var fee := FeeOf(tx, s, t);
      var change := tx.outputs[s.changeIndex].value - (fee - tx.fee);
      if change < t.script.dust then Err(TooLittleChange(BestRate(tx, s, t)))
      else
        var outputs := Neutrals(tx.outputs)[s.changeIndex := Neutral(tx.outputs[s.changeIndex]).(value := change)];
        Ok(Replacement(s.inputs, outputs, fee, tx.fee, tx.vsize, s.changeIndex,
                       OrEmpty(tx.outputs[s.changeIndex].address), OrEmpty(tx.outputs[s.payee].address),
                       tx.outputs[s.payee].value, s.memo))
  }

  // --- which rates a transaction can be bumped to --------------------------

  /** With the shape accepted, a rate and surcharge are accepted exactly when both floors fit under the ceiling. */
  lemma AcceptedExactlyWhen(tx: TxSummary, t: Terms)
    requires ShapeOf(tx, t.owned, t.changePrefix, t.script).Ok?
    ensures var s := ShapeOf(tx, t.owned, t.changePrefix, t.script).value;
            var ceiling := Ceiling(tx, s, t.script);
            Plan(tx, t).Ok? <==>
            tx.vsize * t.rate.num <= (ceiling - t.extraFee) * t.rate.den && Floor(tx, s, t) <= ceiling
  {
    var s := ShapeOf(tx, t.owned, t.changePrefix, t.script).value;
    CeilAtGalois(tx.vsize, t.rate, Ceiling(tx, s, t.script) - t.extraFee);
  }

  /** What a refusal for too little change says. */
  lemma RefusedWith(tx: TxSummary, t: Terms) returns (s: Shape)
    requires Plan(tx, t).Err? && Plan(tx, t).error.TooLittleChange?
    ensures ShapeOf(tx, t.owned, t.changePrefix, t.script) == Ok(s)
    ensures Plan(tx, t).error.bestRate == BestRate(tx, s, t)
  {
    s := ShapeOf(tx, t.owned, t.changePrefix, t.script).value;
  }

  /** The same for a rate in hundredths. */
  lemma HundredthsAccepted(tx: TxSummary, t: Terms, s: Shape, k: int, extraFee: int)
    requires ShapeOf(tx, t.owned, t.changePrefix, t.script) == Ok(s) && Floor(tx, s, t) <= Ceiling(tx, s, t.script)
    ensures Plan(tx, t.(rate := Fraction(k, 100), extraFee := extraFee)).Ok? <==>
            tx.vsize * k <= (Ceiling(tx, s, t.script) - extraFee) * 100
  {
    var u := t.(rate := Fraction(k, 100), extraFee := extraFee);
    assert Floor(tx, s, u) == Floor(tx, s, t);
    AcceptedExactlyWhen(tx, u);
  }

  /** The rate named in a refusal is plannable with no more surcharge than before. */
  lemma NamedRateWorks(tx: TxSummary, t: Terms, extraFee: int)
    requires Plan(tx, t).Err? && Plan(tx, t).error.TooLittleChange? && Plan(tx, t).error.bestRate.Some?
    requires extraFee <= t.extraFee
    ensures Plan(tx, t.(rate := Fraction(Plan(tx, t).error.bestRate.value, 100), extraFee := extraFee)).Ok?
  {
    var s := RefusedWith(tx, t);
    var room := Ceiling(tx, s, t.script) - t.extraFee;
    var k := Plan(tx, t).error.bestRate.value;
    NamedFits(tx.vsize, room, k);
    HundredthsAccepted(tx, t, s, k, extraFee);
  }

  /** One hundredth of a sat/vB more, with the same surcharge, is refused. */
  lemma NamedRateIsBest(tx: TxSummary, t: Terms)
    requires Plan(tx, t).Err? && Plan(tx, t).error.TooLittleChange? && Plan(tx, t).error.bestRate.Some?
    ensures tx.vsize > 0
    ensures Plan(tx, t.(rate := Fraction(Plan(tx, t).error.bestRate.value + 1, 100))).Err?
  {
    var s := RefusedWith(tx, t);
    var room := Ceiling(tx, s, t.script) - t.extraFee;
    var k := Plan(tx, t).error.bestRate.value;
    AcceptedExactlyWhen(tx, t);
    if tx.vsize == 0 {
      assert tx.vsize * t.rate.num == 0;
      Scale(0, room, t.rate.den);
      assert false;
    }
    NextDoesNotFit(tx.vsize, room, k);
    HundredthsAccepted(tx, t, s, k + 1, t.extraFee);
  }

  lemma NamedFits(vsize: nat, room: int, k: int)
    requires room >= 0 && k == if vsize == 0 then 0 else FloorDiv(room * 100, vsize)
    ensures vsize * k <= room * 100
  {
    if vsize > 0 {
      FloorGalois(room * 100, vsize, k);
      assert vsize * k == k * vsize;
    }
  }

  lemma NextDoesNotFit(vsize: nat, room: int, k: int)
    requires vsize > 0 && k == FloorDiv(room * 100, vsize)
    ensures vsize * (k + 1) > room * 100
  {
    FloorGalois(room * 100, vsize, k + 1);
    assert vsize * (k + 1) == (k + 1) * vsize;
  }

  /**
   * With enough less surcharge, it is accepted after all: a hundredth of a sat/vB
   * on every byte is all it takes.
   */
  lemma LessSurchargeTakesMore(tx: TxSummary, t: Terms, extraFee: int)
    requires Plan(tx, t).Err? && Plan(tx, t).error.TooLittleChange? && Plan(tx, t).error.bestRate.Some?
    requires extraFee <= t.extraFee - CeilDiv(tx.vsize, 100)
    ensures Plan(tx, t.(rate := Fraction(Plan(tx, t).error.bestRate.value + 1, 100), extraFee := extraFee)).Ok?
  {
    var s := RefusedWith(tx, t);
    var room := Ceiling(tx, s, t.script) - t.extraFee;
    var k := Plan(tx, t).error.bestRate.value;
    NamedFits(tx.vsize, room, k);
    CeilGalois(tx.vsize, 100, CeilDiv(tx.vsize, 100));
    OneMore(tx.vsize, k);
    HundredthsAccepted(tx, t, s, k + 1, extraFee);
  }

  lemma OneMore(n: int, k: int)
    ensures n * (k + 1) == n * k + n
  {
  }

  /** A change of 9900 to shrink, and a payment, in 200 vB that paid 100. */
  function StuckTx(): TxSummary {
    TxSummary("tx", false, None, 100, 200,
              [TxEntry(20_000, Some("own"), false, Some("parent"), Some(0), Some(0), None, None)],
              [TxEntry(10_000, Some("payee"), false, None, None, None, None, None),
               TxEntry(9_900, Some("own"), false, None, None, None, None, None)])
  }

  function StuckTerms(): Terms {
    Terms(map["own" := "m/84'/0'/0'/1/0"], "m/84'/0'/0'/1/", Fraction(100, 1), 500, P2WPKH,
          Fraction(1, 1))
  }

  lemma StuckShape(tx: TxSummary, t: Terms) returns (s: Shape)
    requires tx == StuckTx() && t == StuckTerms()
    ensures ShapeOf(tx, t.owned, t.changePrefix, t.script) == Ok(s) && s.replacementVsize == 200
    ensures s.changeIndex == 1 < |tx.outputs| && Ceiling(tx, s, t.script) == 9_706 && Floor(tx, s, t) == 300
    ensures |s.inputs| == 1 && s.inputs[0].txid == "parent"
  {
    assert Inputs(tx.inputs[1..], t.owned) == Ok([]);
    s := Shape(Inputs(tx.inputs, t.owned).value, 1, None, 0, 200);
  }

  lemma StuckRefused(tx: TxSummary, t: Terms)
    requires tx == StuckTx() && t == StuckTerms()
    ensures Plan(tx, t) == Err(TooLittleChange(Some(4603)))
  {
    var s := StuckShape(tx, t);
    AcceptedExactlyWhen(tx, t);
    BestOfStuck(tx, t, s);
  }

  lemma BestOfStuck(tx: TxSummary, t: Terms, s: Shape)
    requires s.changeIndex < |tx.outputs| && t.extraFee == 500
    requires Ceiling(tx, s, t.script) == 9_706 && Floor(tx, s, t) == 300 && tx.vsize == 200
    ensures BestRate(tx, s, t) == Some(4603)
  {
  }

  /** At 100 sat/vB and a surcharge of 500 the refusal names 46.03; 46.04 is accepted with no surcharge. */
  lemma SurchargeInstance()
    ensures Plan(StuckTx(), StuckTerms()) == Err(TooLittleChange(Some(4603)))
    ensures Plan(StuckTx(), StuckTerms().(rate := Fraction(4604, 100), extraFee := 0)).Ok?
  {
    StuckRefused(StuckTx(), StuckTerms());
    LessSurchargeTakesMore(StuckTx(), StuckTerms(), 0);
  }

  /** A refusal that names no rate means no rate works, at this surcharge or any larger one. */
  lemma NoRateWorks(tx: TxSummary, t: Terms, rate: Rate, extraFee: int)
    requires Plan(tx, t) == Err(TooLittleChange(None)) && rate.num >= 0 && extraFee >= t.extraFee
    ensures Plan(tx, t.(rate := rate, extraFee := extraFee)).Err?
  {
    var s := ShapeOf(tx, t.owned, t.changePrefix, t.script).value;
    var ceiling := Ceiling(tx, s, t.script);
    AcceptedExactlyWhen(tx, t.(rate := rate, extraFee := extraFee));
    Scale(0, tx.vsize, rate.num);
    if extraFee > ceiling {
      Scale(ceiling - extraFee, -1, rate.den);
    }
  }

  // --- the method, and what a bump changes ----------------------------------

  /** `plan_replacement`. */
  method PlanReplacement(tx: TxSummary, t: Terms) returns (r: Result<Replacement, Refusal>)
    ensures r == Plan(tx, t)
  {
    if tx.confirmed {
      return Err(AlreadyConfirmed);
    }
    if !SignalsRbf(tx) {
      return Err(NotSignalling);
    }
    var inputs :- InputsWithPaths(tx, t.owned);
    var changeIndex :- ChangeIndex(tx, t.owned, t.changePrefix);
    var memo :- MemoFound(tx);
    var payee :- PayeeIndex(tx, changeIndex);
    var s := Shape(inputs, changeIndex, memo, payee, ReplacementVsize(tx, |inputs|, memo, t.script));
    var fee := FeeOf(tx, s, t);
    var change := tx.outputs[s.changeIndex].value - (fee - tx.fee);
    if change < t.script.dust {
      return Err(TooLittleChange(BestRate(tx, s, t)));
    }
    var outputs := Neutrals(tx.outputs);
    outputs := outputs[s.changeIndex := outputs[s.changeIndex].(value := change)];
    return Ok(Replacement(inputs, outputs, fee, tx.fee, tx.vsize, s.changeIndex,
                          OrEmpty(outputs[s.changeIndex].address), OrEmpty(tx.outputs[s.payee].address),
                          tx.outputs[s.payee].value, s.memo));
  }

  lemma {:induction false} TotalOutUpdate(os: seq<TxOutput>, i: nat, o: TxOutput)
    requires i < |os|
    ensures TotalOut(os[i := o]) == TotalOut(os) - os[i].value + o.value
  {
    if i == 0 {
      assert os[0 := o][1..] == os[1..];
    } else {
      TotalOutUpdate(os[1..], i - 1, o);
      assert os[i := o][1..] == os[1..][i - 1 := o];
    }
  }

  lemma {:induction false} TotalOutNeutrals(es: seq<TxEntry>)
    ensures TotalOut(Neutrals(es)) == TotalValue(es)
  {
    if es != [] {
      TotalOutNeutrals(es[1..]);
      assert Neutrals(es)[1..] == Neutrals(es[1..]);
    }
  }

  /** Inputs are re-spent one for one: the same outpoints, values and order. */
  lemma {:induction false} SameInputs(es: seq<TxEntry>, owned: map<string, string>)
    requires Inputs(es, owned).Ok?
    ensures var us := Inputs(es, owned).value;
            |us| == |es| && Total(us) == TotalValue(es)
            && forall i :: 0 <= i < |es| ==> Some(us[i].txid) == es[i].txid && Some(us[i].vout) == es[i].vout
                                             && us[i].value == es[i].value && us[i].address in owned
  {
    if es != [] {
      SameInputs(es[1..], owned);
    }
  }

  /** A bump moves the change output's value and nothing else, and conserves value. */
  lemma BumpMovesOnlyChange(tx: TxSummary, t: Terms)
    requires Plan(tx, t).Ok?
    ensures var r := Plan(tx, t).value;
            var c := r.changeIndex;
            && |r.outputs| == |tx.outputs| && c < |tx.outputs| && PaysUs(tx.outputs[c], t.owned)
            && (forall i :: 0 <= i < |tx.outputs| && i != c ==> r.outputs[i] == Neutral(tx.outputs[i]))
            && r.outputs[c] == Neutral(tx.outputs[c]).(value := tx.outputs[c].value - (r.fee - tx.fee))
            && r.outputs[c].value >= t.script.dust
            && TotalOut(r.outputs) + r.fee == TotalValue(tx.outputs) + tx.fee
            && |r.inputs| == |tx.inputs| && Total(r.inputs) == TotalValue(tx.inputs)
            && forall i :: 0 <= i < |tx.inputs| ==>
                 Some(r.inputs[i].txid) == tx.inputs[i].txid && Some(r.inputs[i].vout) == tx.inputs[i].vout
  {
    var s := ShapeOf(tx, t.owned, t.changePrefix, t.script).value;
    var r := Plan(tx, t).value;
    SameInputs(tx.inputs, t.owned);
    TotalOutNeutrals(tx.outputs);
    TotalOutUpdate(Neutrals(tx.outputs), s.changeIndex, r.outputs[s.changeIndex]);
  }

  /**
   * It pays the requested rate on the original's size plus the surcharge, and
   * on top of the old fee the relay increment on both sizes.
   */
  lemma BumpPaysRelay(tx: TxSummary, t: Terms)
    requires Plan(tx, t).Ok? && t.incremental.num >= 0
    ensures var r := Plan(tx, t).value;
            && (r.fee - t.extraFee) * t.rate.den >= tx.vsize * t.rate.num
            && (r.fee - tx.fee) * t.incremental.den >= tx.vsize * t.incremental.num
            && (r.fee - tx.fee) * t.incremental.den
               >= EstimateVsize(|r.inputs|, |r.outputs| - (if r.memo.Some? then 1 else 0),
                                if r.memo.Some? then |r.memo.value| else 0, t.script) * t.incremental.num
  {
    var s := ShapeOf(tx, t.owned, t.changePrefix, t.script).value;
    var r := Plan(tx, t).value;
    CeilAtGalois(tx.vsize, t.rate, r.fee - t.extraFee);
    CeilAtGalois(s.replacementVsize, t.incremental, r.fee - tx.fee);
    Scale(tx.vsize, s.replacementVsize, t.incremental.num);
    Scale(EstimateVsize(|r.inputs|, |r.outputs| - (if r.memo.Some? then 1 else 0),
                        if r.memo.Some? then |r.memo.value| else 0, t.script),
          s.replacementVsize, t.incremental.num);
  }
}
