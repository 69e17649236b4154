/** Reading a serialized Cardano transaction back: what the gate sees of it, and what signing checks. */
module CardanoRead {
  import opened CardanoBytes
  import opened CardanoTx
  import opened Chain
  import opened Common
  import CardanoMemo
  import Cbor
  import Sorting
  import Utf8

  const LOVELACE_TO_UNITS := 100

  /** The sets of a transaction are read as sets: the order they were written in is not kept. */
  datatype ParsedTx = ParsedTx(txid: seq<byte>, inputs: set<TxIn>, outputs: seq<(string, int)>, fee: int,
                               memo: Option<seq<byte>>, witnesses: set<Witness>)

  /** Raw address bytes to text. */
  type ToText = seq<byte> -> string

  // --- the reader -----------------------------------------------------------

  /** A decoded boolean is an integer too. */
  function AsInt(x: Item): Option<int> {
    if x.Int? then Some(x.n) else if x.Bool? then Some(if x.b then 1 else 0) else None
  }

  /** `_set_items` */
  function SetItems(x: Option<Item>): Result<seq<Item>, string> {
    if x.None? then Err("missing key")
    else
      var inner := if x.value.Tag? && x.value.tag == SET_TAG then x.value.item else x.value;
      if inner.List? then Ok(inner.items) else Err("not a set")
  }

  function ReadInputs(items: seq<Item>): Result<seq<TxIn>, string> {
    if items == [] then Ok([])
    else
      var i := items[0];
      if !i.List? || |i.items| != 2 || !i.items[0].Raw? || AsInt(i.items[1]).None? then Err("not an input")
      else
        var rest :- ReadInputs(items[1..]);
        Ok([TxIn(i.items[0].bytes, AsInt(i.items[1]).value)] + rest)
  }

  function ReadOutputs(items: seq<Item>, text: ToText): Result<seq<(string, int)>, string> {
    if items == [] then Ok([])
    else
      var o := items[0];
      if !o.List? || |o.items| != 2 || !o.items[0].Raw? || AsInt(o.items[1]).None? then Err("unsupported output shape")
      else
        var rest :- ReadOutputs(items[1..], text);
        Ok([(text(o.items[0].bytes), AsInt(o.items[1]).value)] + rest)
  }

  function ReadWitnesses(items: seq<Item>): Result<seq<Witness>, string> {
    if items == [] then Ok([])
    else
      var w := items[0];
      if !w.List? || |w.items| != 2 || !w.items[0].Raw? || !w.items[1].Raw? then Err("not a witness")
      else
        var rest :- ReadWitnesses(items[1..]);
        Ok([(w.items[0].bytes, w.items[1].bytes)] + rest)
  }

  /** The memo, if the body commits to exactly this auxiliary data. */
  function ReadMemo(body: seq<Item>, aux: Item, auxBytes: seq<byte>, h: Hash): Result<Option<seq<byte>>, string> {
    var bound := CardanoMemo.Get(body, Cbor.Int(7));
    if aux != Cbor.Null then
      if bound != Some(Cbor.Raw(h(auxBytes))) then Err("auxiliary data does not match the body's hash")
      else CardanoMemo.MemoFromMetadata(aux)
    else if bound.Some? then Err("body commits to auxiliary data the tx does not carry")
    else Ok(None)
  }

  function ToSet<T>(s: seq<T>): set<T> { set x | x in s }

  /** The fields of the body and the witness set. */
  function ReadFields(txid: seq<byte>, body: seq<Item>, witnesses: Item, memo: Option<seq<byte>>, text: ToText)
    : Result<ParsedTx, string>
  {
    var outputs, fee := CardanoMemo.Get(body, Cbor.Int(1)), CardanoMemo.Get(body, Cbor.Int(2));
    if outputs.None? || !outputs.value.List? || fee.None? || AsInt(fee.value).None? || !witnesses.Map? then
      Err("missing key")
    else
      var outs :- ReadOutputs(outputs.value.items, text);
      var inputItems :- SetItems(CardanoMemo.Get(body, Cbor.Int(0)));
      var ins :- ReadInputs(inputItems);
      var witnessItems :- SetItems(CardanoMemo.Get(witnesses.entries, Cbor.Int(0)));
      var ws :- ReadWitnesses(witnessItems);
      Ok(ParsedTx(txid, ToSet(ins), outs, AsInt(fee.value).value, memo, ToSet(ws)))
  }

  /** The first of these bytes that `rest` does not end with. */
  function Before(bs: seq<byte>, rest: seq<byte>): seq<byte>
    requires |rest| <= |bs|
  {
    bs[..|bs| - |rest|]
  }

  /** `parse`: the id is hashed over the body as found, and the memo must be the one the body commits to. */
  function Parse(raw: seq<byte>, h: Hash, text: ToText): Result<ParsedTx, string> {
    if raw == [] || raw[0] != 0x84 then Err("not a 4-element Cardano transaction")
    else
      var body :- Cbor.Decode(raw[1..]);
      var witnesses :- Cbor.Decode(body.rest);
      var valid :- Cbor.Decode(witnesses.rest);
      var aux :- Cbor.Decode(valid.rest);
      if !body.item.Map? then Err("not a body")
      else
        var memo :- ReadMemo(body.item.entries, aux.item, Before(valid.rest, aux.rest), h);
        ReadFields(h(Before(raw[1..], body.rest)), body.item.entries, witnesses.item, memo, text)
  }

  /** `neutral_view`: what the bytes pay, the memo as one data entry, and the fee, in hundredths of a lovelace. */
  function NeutralView(raw: seq<byte>, h: Hash, text: ToText): Result<(seq<TxOutput>, int), string> {
    var parsed :- Parse(raw, h, text);
    Ok((Neutral(parsed.outputs) + DataEntry(parsed.memo), parsed.fee * LOVELACE_TO_UNITS))
  }

  function Neutral(outs: seq<(string, int)>): (r: seq<TxOutput>)
    ensures |r| == |outs|
    ensures forall k :: 0 <= k < |outs| ==> r[k] == TxOutput(Some(outs[k].0), outs[k].1 * LOVELACE_TO_UNITS, None)
  {
    if outs == [] then []
    else [TxOutput(Some(outs[0].0), outs[0].1 * LOVELACE_TO_UNITS, None)] + Neutral(outs[1..])
  }

  function DataEntry(memo: Option<seq<byte>>): seq<TxOutput> {
    if memo.Some? then [TxOutput(None, 0, memo)] else []
  }

  // --- what was written can be read -----------------------------------------

  lemma {:induction false} WellFormedMap<T>(f: T -> Item, xs: seq<T>)
    requires forall x :: Cbor.WellFormed(f(x))
    ensures Cbor.AllWellFormed(Map(f, xs))
  {
    if xs != [] {
      WellFormedMap(f, xs[1..]);
      assert Map(f, xs)[1..] == Map(f, xs[1..]);
    }
  }

  lemma TwoWellFormed(x: Item, y: Item)
    requires Cbor.WellFormed(x) && Cbor.WellFormed(y)
    ensures Cbor.AllWellFormed([x, y])
  {
    assert [x, y][1..] == [y] && [y][1..] == [];
  }

  lemma {:induction false} WellFormedConcat(xs: seq<Item>, ys: seq<Item>)
    requires Cbor.AllWellFormed(xs) && Cbor.AllWellFormed(ys)
    ensures Cbor.AllWellFormed(xs + ys)
  {
    if xs == [] {
      assert [] + ys == ys;
    } else {
      WellFormedConcat(xs[1..], ys);
      assert (xs + ys)[1..] == xs[1..] + ys;
    }
  }

  lemma EntriesWellFormed(a: Item, b: Item, c: Item, d: Item)
    requires Cbor.WellFormed(a) && Cbor.WellFormed(b) && Cbor.WellFormed(c) && Cbor.WellFormed(d)
    ensures Cbor.AllWellFormed([Cbor.Int(0), a, Cbor.Int(1), b, Cbor.Int(2), c, Cbor.Int(3), d])
  {
    TwoWellFormed(Cbor.Int(0), a);
    TwoWellFormed(Cbor.Int(1), b);
    TwoWellFormed(Cbor.Int(2), c);
    TwoWellFormed(Cbor.Int(3), d);
    WellFormedConcat([Cbor.Int(0), a], [Cbor.Int(1), b]);
    WellFormedConcat([Cbor.Int(2), c], [Cbor.Int(3), d]);
    var front, back := [Cbor.Int(0), a] + [Cbor.Int(1), b], [Cbor.Int(2), c] + [Cbor.Int(3), d];
    WellFormedConcat(front, back);
    assert front + back == [Cbor.Int(0), a, Cbor.Int(1), b, Cbor.Int(2), c, Cbor.Int(3), d];
  }

  lemma InputsWellFormed(ins: seq<TxIn>)
    ensures Cbor.WellFormed(SetOf(Map(InputItem, ins)))
  {
    forall i: TxIn ensures Cbor.WellFormed(InputItem(i)) { TwoWellFormed(Cbor.Raw(i.txid), Cbor.Int(i.index)); }
    WellFormedMap(InputItem, ins);
  }

  lemma OutputsWellFormed(outs: seq<TxOut>)
    ensures Cbor.WellFormed(Cbor.List(Map(OutputItem, outs)))
  {
    forall o: TxOut ensures Cbor.WellFormed(OutputItem(o)) {
      TwoWellFormed(Cbor.Raw(o.address), Cbor.Int(o.lovelace));
    }
    WellFormedMap(OutputItem, outs);
  }

  lemma MemoEntryWellFormed(memo: Option<string>, h: Hash)
    ensures Cbor.AllWellFormed(MemoEntry(memo, h)) && |MemoEntry(memo, h)| == if memo.Some? then 2 else 0
  {
    if memo.Some? { TwoWellFormed(Cbor.Int(7), Cbor.Raw(h(EncodeAux(memo.value)))); }
  }

  lemma MapWellFormed(entries: seq<Item>, more: seq<Item>)
    requires Cbor.AllWellFormed(entries) && Cbor.AllWellFormed(more) && |entries| == 8 && (|more| == 0 || |more| == 2)
    ensures Cbor.WellFormed(Cbor.Map(entries + more))
  {
    WellFormedConcat(entries, more);
  }

  lemma BodyWellFormed(tx: UnsignedTx, h: Hash)
    ensures Cbor.WellFormed(Body(tx, h))
  {
    InputsWellFormed(SortedInputs(tx.inputs));
    OutputsWellFormed(tx.outputs);
    EntriesWellFormed(SetOf(Map(InputItem, SortedInputs(tx.inputs))), Cbor.List(Map(OutputItem, tx.outputs)),
                      Cbor.Int(tx.fee), Cbor.Int(tx.ttl));
    MemoEntryWellFormed(tx.memo, h);
    MapWellFormed(BodyEntries(tx), MemoEntry(tx.memo, h));
  }

  lemma WitnessSetWellFormed(ws: seq<Witness>)
    ensures Cbor.WellFormed(WitnessSet(ws))
  {
    forall w: Witness ensures Cbor.WellFormed(WitnessItem(w)) { TwoWellFormed(Cbor.Raw(w.0), Cbor.Raw(w.1)); }
    WellFormedMap(WitnessItem, SortedWitnesses(ws));
    TwoWellFormed(Cbor.Int(0), SetOf(Map(WitnessItem, SortedWitnesses(ws))));
  }

  lemma {:induction false} TextsWellFormed(texts: seq<string>)
    ensures Cbor.AllWellFormed(CardanoMemo.Texts(texts))
  {
    if texts != [] {
      TextsWellFormed(texts[1..]);
      assert CardanoMemo.Texts(texts)[1..] == CardanoMemo.Texts(texts[1..]);
    }
  }

  lemma AuxWellFormed(memo: Option<string>)
    ensures Cbor.WellFormed(Auxiliary(memo))
  {
    if memo.Some? {
      var texts := CardanoMemo.Texts(CardanoMemo.Chunks(memo.value));
      TextsWellFormed(CardanoMemo.Chunks(memo.value));
      TwoWellFormed(Cbor.Text("msg"), Cbor.List(texts));
      TwoWellFormed(Cbor.Int(CardanoMemo.CIP20_LABEL), Cbor.Map([Cbor.Text("msg"), Cbor.List(texts)]));
    }
  }

  // --- reading inverts writing ----------------------------------------------

  lemma {:induction false} ReadInputsOf(ins: seq<TxIn>)
    ensures ReadInputs(Map(InputItem, ins)) == Ok(ins)
  {
    if ins != [] {
      ReadInputsOf(ins[1..]);
      assert Map(InputItem, ins)[1..] == Map(InputItem, ins[1..]);
      assert [ins[0]] + ins[1..] == ins;
    }
  }

  lemma {:induction false} ReadWitnessesOf(ws: seq<Witness>)
    ensures ReadWitnesses(Map(WitnessItem, ws)) == Ok(ws)
  {
    if ws != [] {
      ReadWitnessesOf(ws[1..]);
      assert Map(WitnessItem, ws)[1..] == Map(WitnessItem, ws[1..]);
      assert [ws[0]] + ws[1..] == ws;
    }
  }

  /** The outputs as they are read: each address as text, and its lovelace. */
  function OutputsAsRead(outs: seq<TxOut>, text: ToText): (r: seq<(string, int)>)
    ensures |r| == |outs|
    ensures forall k :: 0 <= k < |outs| ==> r[k] == (text(outs[k].address), outs[k].lovelace)
  {
    if outs == [] then [] else [(text(outs[0].address), outs[0].lovelace)] + OutputsAsRead(outs[1..], text)
  }

  lemma {:induction false} ReadOutputsOf(outs: seq<TxOut>, text: ToText)
    ensures ReadOutputs(Map(OutputItem, outs), text) == Ok(OutputsAsRead(outs, text))
  {
    if outs != [] {
      ReadOutputsOf(outs[1..], text);
      assert Map(OutputItem, outs)[1..] == Map(OutputItem, outs[1..]);
    }
  }

  lemma SortKeepsElements<T>(s: seq<T>, le: (T, T) -> bool)
    ensures ToSet(Sorting.Sort(s, le)) == ToSet(s)
  {
    var sorted := Sorting.Sort(s, le);
    Sorting.SortMultiset(s, le);
    forall x ensures x in ToSet(sorted) <==> x in ToSet(s) {
      assert x in sorted <==> x in multiset(sorted);
      assert x in s <==> x in multiset(s);
    }
    assert ToSet(sorted) == ToSet(s);
  }

  lemma GetFirst(key: Item, value: Item, rest: seq<Item>, want: Item)
    ensures CardanoMemo.Get([key, value] + rest, want)
         == if CardanoMemo.Get(rest, want).Some? then CardanoMemo.Get(rest, want)
            else if key == want then Some(value) else None
  {
    assert ([key, value] + rest)[2..] == rest;
  }

  lemma GetAmong(a: Item, b: Item, c: Item, d: Item, more: seq<Item>, want: Item)
    ensures CardanoMemo.Get([Cbor.Int(0), a, Cbor.Int(1), b, Cbor.Int(2), c, Cbor.Int(3), d] + more, want)
         == if CardanoMemo.Get(more, want).Some? then CardanoMemo.Get(more, want)
            else if want == Cbor.Int(3) then Some(d)
            else if want == Cbor.Int(2) then Some(c)
            else if want == Cbor.Int(1) then Some(b)
            else if want == Cbor.Int(0) then Some(a) else None
  {
    var last := [Cbor.Int(3), d] + more;
    var third := [Cbor.Int(2), c] + last;
    var second := [Cbor.Int(1), b] + third;
    GetFirst(Cbor.Int(3), d, more, want);
    GetFirst(Cbor.Int(2), c, last, want);
    GetFirst(Cbor.Int(1), b, third, want);
    GetFirst(Cbor.Int(0), a, second, want);
    EightAnd(Cbor.Int(0), a, Cbor.Int(1), b, Cbor.Int(2), c, Cbor.Int(3), d, more);
  }

  lemma EightAnd<T>(a: T, b: T, c: T, d: T, e: T, f: T, g: T, h: T, more: seq<T>)
    ensures [a, b, c, d, e, f, g, h] + more == [a, b] + ([c, d] + ([e, f] + ([g, h] + more)))
  {
  }

  lemma MemoGet(memo: Option<string>, h: Hash, want: Item)
    ensures CardanoMemo.Get(MemoEntry(memo, h), want)
         == if memo.Some? && want == Cbor.Int(7) then Some(Cbor.Raw(h(EncodeAux(memo.value)))) else None
  {
    if memo.Some? {
      var value := Cbor.Raw(h(EncodeAux(memo.value)));
      GetFirst(Cbor.Int(7), value, [], want);
      assert [Cbor.Int(7), value] + [] == MemoEntry(memo, h);
    }
  }

  /** The entries of a body, by key. */
  lemma BodyGets(tx: UnsignedTx, h: Hash, want: Item)
    ensures CardanoMemo.Get(BodyEntries(tx) + MemoEntry(tx.memo, h), want)
         == if want == Cbor.Int(0) then Some(SetOf(Map(InputItem, SortedInputs(tx.inputs))))
            else if want == Cbor.Int(1) then Some(Cbor.List(Map(OutputItem, tx.outputs)))
            else if want == Cbor.Int(2) then Some(Cbor.Int(tx.fee))
            else if want == Cbor.Int(3) then Some(Cbor.Int(tx.ttl))
            else if want == Cbor.Int(7) && tx.memo.Some? then Some(Cbor.Raw(h(EncodeAux(tx.memo.value))))
            else None
  {
    MemoGet(tx.memo, h, want);
    GetAmong(SetOf(Map(InputItem, SortedInputs(tx.inputs))), Cbor.List(Map(OutputItem, tx.outputs)),
             Cbor.Int(tx.fee), Cbor.Int(tx.ttl), MemoEntry(tx.memo, h), want);
  }

  /** The bytes of a memo, if there is one. */
  function MemoAsRead(memo: Option<string>): Option<seq<byte>> {
    if memo.Some? then Some(Utf8.Encode(memo.value)) else None
  }

  lemma ReadMemoOf(tx: UnsignedTx, h: Hash)
    ensures ReadMemo(BodyEntries(tx) + MemoEntry(tx.memo, h), Auxiliary(tx.memo), Cbor.Encode(Auxiliary(tx.memo)), h)
         == Ok(MemoAsRead(tx.memo))
  {
    BodyGets(tx, h, Cbor.Int(7));
    if tx.memo.Some? { CardanoMemo.MemoRoundTrip(tx.memo.value); }
  }

  /** What is read of a transaction. */
  function AsRead(tx: UnsignedTx, ws: seq<Witness>, memo: Option<seq<byte>>, h: Hash, text: ToText): ParsedTx {
    ParsedTx(Txid(tx, h), ToSet(tx.inputs), OutputsAsRead(tx.outputs, text), tx.fee, memo, ToSet(ws))
  }

  lemma ReadInputsOfBody(tx: UnsignedTx, h: Hash)
    ensures var items := SetItems(CardanoMemo.Get(BodyEntries(tx) + MemoEntry(tx.memo, h), Cbor.Int(0)));
            items.Ok? && ReadInputs(items.value) == Ok(SortedInputs(tx.inputs))
  {
    BodyGets(tx, h, Cbor.Int(0));
    ReadInputsOf(SortedInputs(tx.inputs));
  }

  lemma ReadWitnessesOfSet(ws: seq<Witness>)
    ensures var items := SetItems(CardanoMemo.Get(WitnessSet(ws).entries, Cbor.Int(0)));
            items.Ok? && ReadWitnesses(items.value) == Ok(SortedWitnesses(ws))
  {
    ReadWitnessesOf(SortedWitnesses(ws));
    CardanoMemo.OneEntry(Cbor.Int(0), SetOf(Map(WitnessItem, SortedWitnesses(ws))));
  }

  lemma ReadFieldsOf(tx: UnsignedTx, ws: seq<Witness>, memo: Option<seq<byte>>, h: Hash, text: ToText)
    ensures ReadFields(Txid(tx, h), BodyEntries(tx) + MemoEntry(tx.memo, h), WitnessSet(ws), memo, text)
         == Ok(AsRead(tx, ws, memo, h, text))
  {
    BodyGets(tx, h, Cbor.Int(1));
    BodyGets(tx, h, Cbor.Int(2));
    ReadInputsOfBody(tx, h);
    ReadOutputsOf(tx.outputs, text);
    ReadWitnessesOfSet(ws);
    SortKeepsElements(tx.inputs, TxInLe);
    SortKeepsElements(ws, WitnessLe);
  }

  lemma BeforeRest(a: seq<byte>, b: seq<byte>)
    ensures Before(a + b, b) == a
  {
  }

  /** The four items, one after the other. */
  lemma DecodesInTurn(x: Item, more: seq<byte>)
    requires Cbor.WellFormed(x) && |Cbor.Encode(x)| < Cbor.TWO_64
    ensures Cbor.Decode(Cbor.Encode(x) + more) == Ok(Cbor.Decoded(x, more))
  {
    Cbor.ShortIsEncodable(x);
    Cbor.DecodeOfEncode(x, more);
  }

  lemma Rearrange(b: seq<byte>, w: seq<byte>, v: seq<byte>, a: seq<byte>)
    ensures ([0x84] + b + w + v + a)[1..] == b + (w + (v + (a + []))) && ([0x84] + b + w + v + a)[0] == 0x84
  {
  }

  /** The same bytes with any auxiliary data at the end. */
  function Carrying(tx: UnsignedTx, ws: seq<Witness>, h: Hash, aux: Item): seq<byte> {
    [0x84] + EncodeBody(tx, h) + Cbor.Encode(WitnessSet(ws)) + Cbor.Encode(Cbor.Bool(true)) + Cbor.Encode(aux)
  }

  lemma ParseOfCarrying(tx: UnsignedTx, ws: seq<Witness>, h: Hash, text: ToText, aux: Item)
    requires |Carrying(tx, ws, h, aux)| < Cbor.TWO_64 && Cbor.WellFormed(aux)
    ensures var memo := ReadMemo(BodyEntries(tx) + MemoEntry(tx.memo, h), aux, Cbor.Encode(aux), h);
            Parse(Carrying(tx, ws, h, aux), h, text)
            == if memo.Err? then Err(memo.error) else Ok(AsRead(tx, ws, memo.value, h, text))
  {
    var b, w := EncodeBody(tx, h), Cbor.Encode(WitnessSet(ws));
    var v, a := Cbor.Encode(Cbor.Bool(true)), Cbor.Encode(aux);
    Rearrange(b, w, v, a);
    BodyWellFormed(tx, h);
    WitnessSetWellFormed(ws);
    DecodesInTurn(Body(tx, h), w + (v + (a + [])));
    DecodesInTurn(WitnessSet(ws), v + (a + []));
    DecodesInTurn(Cbor.Bool(true), a + []);
    DecodesInTurn(aux, []);
    BeforeRest(b, w + (v + (a + [])));
    BeforeRest(a, []);
    var memo := ReadMemo(BodyEntries(tx) + MemoEntry(tx.memo, h), aux, Cbor.Encode(aux), h);
    if memo.Ok? { ReadFieldsOf(tx, ws, memo.value, h, text); }
  }

  /**
   * Reading inverts writing: the id is the transaction's, and inputs, outputs,
   * fee, memo and witnesses are those written.
   */
  lemma ParseOfSerialize(tx: UnsignedTx, ws: seq<Witness>, h: Hash, text: ToText)
    requires |Serialize(tx, ws, h)| < 0x1_0000_0000_0000_0000
    ensures Parse(Serialize(tx, ws, h), h, text)
         == Ok(ParsedTx(Txid(tx, h), (set i | i in tx.inputs), OutputsAsRead(tx.outputs, text), tx.fee,
                        if tx.memo.Some? then Some(Utf8.Encode(tx.memo.value)) else None, (set w | w in ws)))
  {
    AuxWellFormed(tx.memo);
    assert Carrying(tx, ws, h, Auxiliary(tx.memo)) == Serialize(tx, ws, h);
    ParseOfCarrying(tx, ws, h, text, Auxiliary(tx.memo));
    ReadMemoOf(tx, h);
  }

  /**
   * Other auxiliary data under the same body: read only if it hashes to what the
   * body commits to; dropped, or added where the body commits to none, never.
   */
  lemma ForeignMemoRefused(tx: UnsignedTx, ws: seq<Witness>, h: Hash, text: ToText, aux: Item)
    requires |Carrying(tx, ws, h, aux)| < 0x1_0000_0000_0000_0000 && Cbor.WellFormed(aux)
    ensures Parse(Carrying(tx, ws, h, aux), h, text).Ok?
            <==> if aux == Cbor.Null then tx.memo.None?
                 else tx.memo.Some? && h(Cbor.Encode(aux)) == h(EncodeAux(tx.memo.value))
                      && CardanoMemo.MemoFromMetadata(aux).Ok?
  {
    ParseOfCarrying(tx, ws, h, text, aux);
    BodyGets(tx, h, Cbor.Int(7));
  }

  /** The gate's view of a transaction: each output's address and value, then the memo's bytes, and the fee. */
  lemma NeutralViewOf(tx: UnsignedTx, ws: seq<Witness>, h: Hash, text: ToText)
    requires |Serialize(tx, ws, h)| < 0x1_0000_0000_0000_0000
    ensures NeutralView(Serialize(tx, ws, h), h, text)
         == Ok((NeutralOutputs(tx.outputs, text) + DataEntry(MemoAsRead(tx.memo)), tx.fee * LOVELACE_TO_UNITS))
  {
    ParseOfSerialize(tx, ws, h, text);
  }

  function NeutralOutputs(outs: seq<TxOut>, text: ToText): (r: seq<TxOutput>)
    ensures |r| == |outs|
    ensures forall k :: 0 <= k < |outs| ==>
              r[k] == TxOutput(Some(text(outs[k].address)), outs[k].lovelace * LOVELACE_TO_UNITS, None)
  {
    Neutral(OutputsAsRead(outs, text))
  }
}
