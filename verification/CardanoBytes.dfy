/** A Cardano transaction's bytes, what they measure, and the fee reckoned on them. */
module CardanoBytes {
  import opened Common
  import opened CardanoTx
  import CardanoFees
  import CardanoMemo
  import Cbor
  import Rates
  import Sorting
  import Utf8

  type Item = Cbor.Item

  /** A public key and its signature. */
  type Witness = (seq<byte>, seq<byte>)

  type Digest = d: seq<byte> | |d| == 32 witness Repeat<byte>(0, 32)

  /** BLAKE2b-256, of which only the length is assumed. */
  type Hash = seq<byte> -> Digest

  // --- the order of sets ----------------------------------------------------

  /** Python's order on byte strings. */
  predicate BytesLe(a: seq<byte>, b: seq<byte>) {
    a == [] || (b != [] && (a[0] < b[0] || (a[0] == b[0] && BytesLe(a[1..], b[1..]))))
  }

  predicate TxInLe(a: TxIn, b: TxIn) { if a.txid == b.txid then a.index <= b.index else BytesLe(a.txid, b.txid) }

  predicate WitnessLe(a: Witness, b: Witness) { if a.0 == b.0 then BytesLe(a.1, b.1) else BytesLe(a.0, b.0) }

  function SortedInputs(ins: seq<TxIn>): seq<TxIn> { Sorting.Sort(ins, TxInLe) }

  function SortedWitnesses(ws: seq<Witness>): seq<Witness> { Sorting.Sort(ws, WitnessLe) }

  lemma {:induction false} BytesLeTotal(a: seq<byte>, b: seq<byte>)
    ensures BytesLe(a, b) || BytesLe(b, a)
    ensures BytesLe(a, b) && BytesLe(b, a) ==> a == b
    decreases |a|
  {
    if a != [] && b != [] {
      BytesLeTotal(a[1..], b[1..]);
      assert a == [a[0]] + a[1..] && b == [b[0]] + b[1..];
    }
  }

  lemma {:induction false} BytesLeTransitive(a: seq<byte>, b: seq<byte>, c: seq<byte>)
    requires BytesLe(a, b) && BytesLe(b, c)
    ensures BytesLe(a, c)
    decreases |a|
  {
    if a != [] && a[0] == b[0] == c[0] {
      BytesLeTransitive(a[1..], b[1..], c[1..]);
    }
  }

  lemma TxInOrder()
    ensures Sorting.Preorder(TxInLe)
  {
    forall x, y ensures TxInLe(x, y) || TxInLe(y, x) {
      BytesLeTotal(x.txid, y.txid);
    }
    forall x, y, z | TxInLe(x, y) && TxInLe(y, z) ensures TxInLe(x, z) {
      BytesLeTotal(x.txid, y.txid);
      BytesLeTotal(y.txid, z.txid);
      BytesLeTotal(x.txid, z.txid);
      if x.txid != y.txid && y.txid != z.txid { BytesLeTransitive(x.txid, y.txid, z.txid); }
    }
  }

  /** Where the two first differ, `a` has the smaller byte; or it ends first. */
  ghost predicate Precedes(a: seq<byte>, b: seq<byte>) {
    a <= b || exists k :: 0 <= k < |a| && k < |b| && a[..k] == b[..k] && a[k] < b[k]
  }

  lemma {:induction false} BytesLeMeans(a: seq<byte>, b: seq<byte>)
    ensures BytesLe(a, b) <==> Precedes(a, b)
  {
    if a != [] && b != [] && a[0] == b[0] {
      BytesLeMeans(a[1..], b[1..]);
      assert a == [a[0]] + a[1..] && b == [b[0]] + b[1..];
      if k :| 0 <= k < |a| && k < |b| && a[..k] == b[..k] && a[k] < b[k] {
        assert a[1..][..k - 1] == a[..k][1..] && b[1..][..k - 1] == b[..k][1..];
      }
      if k :| 0 <= k < |a[1..]| && k < |b[1..]| && a[1..][..k] == b[1..][..k] && a[1..][k] < b[1..][k] {
        assert a[..k + 1] == [a[0]] + a[1..][..k] && b[..k + 1] == [b[0]] + b[1..][..k];
      }
    } else if a != [] && b != [] {
      assert a[..0] == b[..0];
    }
  }

  /** By id, and among equal ids by position. */
  ghost predicate InOrder(ins: seq<TxIn>) {
    forall i, j :: 0 <= i < j < |ins| ==>
      (ins[i].txid == ins[j].txid && ins[i].index <= ins[j].index)
      || (ins[i].txid != ins[j].txid && Precedes(ins[i].txid, ins[j].txid))
  }

  /** The inputs on the wire are the transaction's, in order. */
  lemma InputsSorted(ins: seq<TxIn>)
    ensures multiset(SortedInputs(ins)) == multiset(ins) && InOrder(SortedInputs(ins))
  {
    TxInOrder();
    Sorting.SortMultiset(ins, TxInLe);
    Sorting.SortSorted(ins, TxInLe);
    var s := SortedInputs(ins);
    forall i, j | 0 <= i < j < |s|
      ensures (s[i].txid == s[j].txid && s[i].index <= s[j].index)
              || (s[i].txid != s[j].txid && Precedes(s[i].txid, s[j].txid))
    {
      assert TxInLe(s[i], s[j]);
      BytesLeMeans(s[i].txid, s[j].txid);
    }
  }

  // --- serialization --------------------------------------------------------

  function InputItem(i: TxIn): Item { Cbor.List([Cbor.Raw(i.txid), Cbor.Int(i.index)]) }

  function OutputItem(o: TxOut): Item { Cbor.List([Cbor.Raw(o.address), Cbor.Int(o.lovelace)]) }

  function WitnessItem(w: Witness): Item { Cbor.List([Cbor.Raw(w.0), Cbor.Raw(w.1)]) }

  function Map<T>(f: T -> Item, xs: seq<T>): (r: seq<Item>)
    ensures |r| == |xs|
    ensures forall k :: 0 <= k < |xs| ==> r[k] == f(xs[k])
  {
    if xs == [] then [] else [f(xs[0])] + Map(f, xs[1..])
  }

  /** `encode_aux` */
  function EncodeAux(memo: string): seq<byte> { Cbor.Encode(CardanoMemo.MetadataForMemo(memo)) }

  function SetOf(items: seq<Item>): Item { Cbor.Tag(SET_TAG, Cbor.List(items)) }

  function BodyEntries(tx: UnsignedTx): seq<Item> {
    [Cbor.Int(0), SetOf(Map(InputItem, SortedInputs(tx.inputs))),
     Cbor.Int(1), Cbor.List(Map(OutputItem, tx.outputs)),
     Cbor.Int(2), Cbor.Int(tx.fee),
     Cbor.Int(3), Cbor.Int(tx.ttl)]
  }

  function MemoEntry(memo: Option<string>, h: Hash): seq<Item> {
    if memo.Some? then [Cbor.Int(7), Cbor.Raw(h(EncodeAux(memo.value)))] else []
  }

  function Body(tx: UnsignedTx, h: Hash): Item { Cbor.Map(BodyEntries(tx) + MemoEntry(tx.memo, h)) }

  /** `encode_body` */
  function EncodeBody(tx: UnsignedTx, h: Hash): seq<byte> { Cbor.Encode(Body(tx, h)) }

  /** `txid` */
  function Txid(tx: UnsignedTx, h: Hash): Digest { h(EncodeBody(tx, h)) }

  function WitnessSet(ws: seq<Witness>): Item { Cbor.Map([Cbor.Int(0), SetOf(Map(WitnessItem, SortedWitnesses(ws)))]) }

  function Auxiliary(memo: Option<string>): Item {
    if memo.Some? then CardanoMemo.MetadataForMemo(memo.value) else Cbor.Null
  }

  /** `serialize` */
  function Serialize(tx: UnsignedTx, ws: seq<Witness>, h: Hash): seq<byte> {
    [0x84] + EncodeBody(tx, h) + Cbor.Encode(WitnessSet(ws)) + Cbor.Encode(Cbor.Bool(true))
    + Cbor.Encode(Auxiliary(tx.memo))
  }

  // --- sizes ----------------------------------------------------------------

  lemma {:induction false} EncodeAllConcat(xs: seq<Item>, ys: seq<Item>)
    ensures Cbor.EncodeAll(xs + ys) == Cbor.EncodeAll(xs) + Cbor.EncodeAll(ys)
  {
    if xs == [] {
      assert [] + ys == ys;
    } else {
      EncodeAllConcat(xs[1..], ys);
      assert (xs + ys)[1..] == xs[1..] + ys;
      Assoc(Cbor.Encode(xs[0]), Cbor.EncodeAll(xs[1..]), Cbor.EncodeAll(ys));
    }
  }

  lemma OneItem(x: Item)
    ensures Cbor.EncodeAll([x]) == Cbor.Encode(x)
  {
    assert [x][1..] == [];
  }

  lemma TwoItems(x: Item, y: Item)
    ensures Cbor.EncodeAll([x, y]) == Cbor.Encode(x) + Cbor.Encode(y)
  {
    OneItem(x);
    OneItem(y);
    EncodeAllConcat([x], [y]);
    assert [x] + [y] == [x, y];
  }

  lemma HeadLength(major: nat, n: nat)
    requires major < 8
    ensures |Cbor.Head(major, n)| == HeadSize(n)
  {
  }

  lemma RawLength(b: seq<byte>)
    ensures |Cbor.Encode(Cbor.Raw(b))| == BytesSize(|b|)
  {
    HeadLength(2, |b|);
  }

  lemma IntLength(n: int)
    ensures |Cbor.Encode(Cbor.Int(n))| == IntSize(n)
  {
    var m := Cbor.Magnitude(n);
    if m < Cbor.TWO_64 {
      HeadLength(if n >= 0 then 0 else 1, m);
    } else {
      RawLength(Cbor.ShortestBytes(m));
      HeadLength(6, if n >= 0 then 2 else 3);
    }
  }

  lemma PairLength(b: seq<byte>, y: Item)
    ensures |Cbor.Encode(Cbor.List([Cbor.Raw(b), y]))| == HeadSize(2) + BytesSize(|b|) + |Cbor.Encode(y)|
  {
    TwoItems(Cbor.Raw(b), y);
    RawLength(b);
    HeadLength(4, 2);
  }

  lemma {:induction false} InputsLength(ins: seq<TxIn>)
    ensures |Cbor.EncodeAll(Map(InputItem, ins))| == InputsSize(ins)
  {
    if ins != [] {
      PairLength(ins[0].txid, Cbor.Int(ins[0].index));
      IntLength(ins[0].index);
      InputsLength(ins[1..]);
      assert Map(InputItem, ins)[1..] == Map(InputItem, ins[1..]);
    }
  }

  lemma {:induction false} OutputsLength(outs: seq<TxOut>)
    ensures |Cbor.EncodeAll(Map(OutputItem, outs))| == OutputsSize(outs)
  {
    if outs != [] {
      PairLength(outs[0].address, Cbor.Int(outs[0].lovelace));
      IntLength(outs[0].lovelace);
      OutputsLength(outs[1..]);
      assert Map(OutputItem, outs)[1..] == Map(OutputItem, outs[1..]);
    }
  }

  /** Signatures and keys of their fixed lengths. */
  predicate Signed(ws: seq<Witness>) { forall k :: 0 <= k < |ws| ==> |ws[k].0| == 32 && |ws[k].1| == 64 }

  lemma {:induction false} WitnessesLength(ws: seq<Witness>, n: nat)
    requires Signed(ws) && n == |ws|
    ensures |Cbor.EncodeAll(Map(WitnessItem, ws))| == n * 101
  {
    if ws != [] {
      PairLength(ws[0].0, Cbor.Raw(ws[0].1));
      RawLength(ws[0].1);
      WitnessesLength(ws[1..], n - 1);
      assert Map(WitnessItem, ws)[1..] == Map(WitnessItem, ws[1..]);
    }
  }

  lemma {:induction false} TextsLength(texts: seq<string>)
    ensures |Cbor.EncodeAll(CardanoMemo.Texts(texts))| == TextsSize(texts) && |CardanoMemo.Texts(texts)| == |texts|
  {
    if texts != [] {
      HeadLength(3, |Utf8.Encode(texts[0])|);
      TextsLength(texts[1..]);
      assert CardanoMemo.Texts(texts)[1..] == CardanoMemo.Texts(texts[1..]);
    }
  }

  lemma {:induction false} InsertSize(x: TxIn, ins: seq<TxIn>)
    ensures InputsSize(Sorting.Insert(x, ins, TxInLe)) == InputSize(x) + InputsSize(ins)
  {
    if ins != [] && !TxInLe(x, ins[0]) {
      InsertSize(x, ins[1..]);
      assert ([ins[0]] + Sorting.Insert(x, ins[1..], TxInLe))[1..] == Sorting.Insert(x, ins[1..], TxInLe);
    } else {
      assert ([x] + ins)[1..] == ins;
    }
  }

  lemma {:induction false} SortedSize(ins: seq<TxIn>)
    ensures InputsSize(SortedInputs(ins)) == InputsSize(ins) && |SortedInputs(ins)| == |ins|
  {
    Sorting.SortMultiset(ins, TxInLe);
    if ins != [] {
      SortedSize(ins[1..]);
      InsertSize(ins[0], SortedInputs(ins[1..]));
    }
  }

  lemma SortedSigned(ws: seq<Witness>)
    requires Signed(ws)
    ensures Signed(SortedWitnesses(ws)) && |SortedWitnesses(ws)| == |ws|
  {
    Sorting.SortMultiset(ws, WitnessLe);
    var s := SortedWitnesses(ws);
    forall k | 0 <= k < |s| ensures |s[k].0| == 32 && |s[k].1| == 64 {
      assert s[k] in multiset(s);
      assert s[k] in ws;
    }
  }

  lemma SetLength(items: seq<Item>)
    ensures |Cbor.Encode(SetOf(items))| == HeadSize(SET_TAG) + HeadSize(|items|) + |Cbor.EncodeAll(items)|
  {
    HeadLength(6, SET_TAG);
    HeadLength(4, |items|);
  }

  lemma ListLength(items: seq<Item>)
    ensures |Cbor.Encode(Cbor.List(items))| == HeadSize(|items|) + |Cbor.EncodeAll(items)|
  {
    HeadLength(4, |items|);
  }

  lemma EntryLength(key: int, value: Item)
    requires 0 <= key < 24
    ensures |Cbor.EncodeAll([Cbor.Int(key), value])| == 1 + |Cbor.Encode(value)|
  {
    TwoItems(Cbor.Int(key), value);
    IntLength(key);
  }

  lemma FourEntries(a: Item, b: Item, c: Item, d: Item)
    ensures |Cbor.EncodeAll([Cbor.Int(0), a, Cbor.Int(1), b, Cbor.Int(2), c, Cbor.Int(3), d])|
         == 4 + |Cbor.Encode(a)| + |Cbor.Encode(b)| + |Cbor.Encode(c)| + |Cbor.Encode(d)|
  {
    EntryLength(0, a);
    EntryLength(1, b);
    EntryLength(2, c);
    EntryLength(3, d);
    var front, back := [Cbor.Int(0), a] + [Cbor.Int(1), b], [Cbor.Int(2), c] + [Cbor.Int(3), d];
    EncodeAllConcat([Cbor.Int(0), a], [Cbor.Int(1), b]);
    EncodeAllConcat([Cbor.Int(2), c], [Cbor.Int(3), d]);
    EncodeAllConcat(front, back);
    assert front + back == [Cbor.Int(0), a, Cbor.Int(1), b, Cbor.Int(2), c, Cbor.Int(3), d];
  }

  lemma EntriesLength(tx: UnsignedTx)
    ensures |Cbor.EncodeAll(BodyEntries(tx))|
         == 4 + HeadSize(SET_TAG) + HeadSize(|tx.inputs|) + InputsSize(tx.inputs)
            + HeadSize(|tx.outputs|) + OutputsSize(tx.outputs) + IntSize(tx.fee) + IntSize(tx.ttl)
  {
    var ins, outs := Map(InputItem, SortedInputs(tx.inputs)), Map(OutputItem, tx.outputs);
    FourEntries(SetOf(ins), Cbor.List(outs), Cbor.Int(tx.fee), Cbor.Int(tx.ttl));
    SetLength(ins);
    SortedSize(tx.inputs);
    InputsLength(SortedInputs(tx.inputs));
    ListLength(outs);
    OutputsLength(tx.outputs);
    IntLength(tx.fee);
    IntLength(tx.ttl);
  }

  lemma MemoEntryLength(memo: Option<string>, h: Hash)
    ensures |Cbor.EncodeAll(MemoEntry(memo, h))| == if memo.Some? then 1 + BytesSize(32) else 0
  {
    if memo.Some? {
      EntryLength(7, Cbor.Raw(h(EncodeAux(memo.value))));
      RawLength(h(EncodeAux(memo.value)));
    }
  }

  lemma BodyLength(tx: UnsignedTx, h: Hash)
    ensures |EncodeBody(tx, h)| == BodySize(tx) + IntSize(tx.fee)
  {
    EntriesLength(tx);
    MemoEntryLength(tx.memo, h);
    EncodeAllConcat(BodyEntries(tx), MemoEntry(tx.memo, h));
    HeadLength(5, if tx.memo.Some? then 5 else 4);
  }

  lemma WitnessSetLength(ws: seq<Witness>)
    requires Signed(ws)
    ensures |Cbor.Encode(WitnessSet(ws))| == WitnessSetSize(|ws|)
  {
    var items := Map(WitnessItem, SortedWitnesses(ws));
    SortedSigned(ws);
    WitnessesLength(SortedWitnesses(ws), |ws|);
    SetLength(items);
    EntryLength(0, SetOf(items));
    HeadLength(5, 1);
  }

  lemma MapOfOne(key: Item, value: Item)
    ensures |Cbor.Encode(Cbor.Map([key, value]))| == 1 + |Cbor.Encode(key)| + |Cbor.Encode(value)|
  {
    TwoItems(key, value);
    HeadLength(5, 1);
  }

  lemma AuxLength(tx: UnsignedTx)
    ensures |Cbor.Encode(Auxiliary(tx.memo))| == AuxSize(tx)
  {
    if tx.memo.Some? {
      var texts := CardanoMemo.Texts(CardanoMemo.Chunks(tx.memo.value));
      TextsLength(CardanoMemo.Chunks(tx.memo.value));
      ListLength(texts);
      MapOfOne(Cbor.Text("msg"), Cbor.List(texts));
      MsgLength();
      MapOfOne(Cbor.Int(CardanoMemo.CIP20_LABEL), Cbor.Map([Cbor.Text("msg"), Cbor.List(texts)]));
      IntLength(CardanoMemo.CIP20_LABEL);
    }
  }

  lemma MsgLength()
    ensures Utf8.Encode("msg") == [0x6D, 0x73, 0x67] && |Cbor.Encode(Cbor.Text("msg"))| == BytesSize(3)
  {
    assert "msg"[1..] == "sg" && "sg"[1..] == "g" && "g"[1..] == "";
    HeadLength(3, 3);
  }

  /** The sizes reckoned with are the lengths of the bytes, for every transaction and every signatures. */
  lemma SizeIsLength(tx: UnsignedTx, ws: seq<Witness>, h: Hash)
    requires Signed(ws)
    ensures |Serialize(tx, ws, h)| == SerializedSize(tx, |ws|)
  {
    BodyLength(tx, h);
    WitnessSetLength(ws);
    AuxLength(tx);
  }

  // --- the fee --------------------------------------------------------------

  /** The fee reaches the price of the bytes, for each byte and flat. */
  lemma PaysMeans(tx: UnsignedTx, ws: seq<Witness>, h: Hash, p: ProtocolParams, f: nat)
    requires Signed(ws)
    ensures Pays(tx, |ws|, p, f) <==> f >= p.minFeeA * |Serialize(tx.(fee := f), ws, h)| + p.minFeeB
  {
    SizeIsLength(tx.(fee := f), ws, h);
  }

  /** The required fee is the least that reaches the price of the signed bytes that carry it. */
  lemma RequiredFeeIsLeast(tx: UnsignedTx, ws: seq<Witness>, h: Hash, p: ProtocolParams)
    requires Signed(ws)
    ensures var r := RequiredFee(tx, |ws|, p);
            && r >= p.minFeeA * |Serialize(tx.(fee := r), ws, h)| + p.minFeeB
            && forall f: nat :: f >= p.minFeeA * |Serialize(tx.(fee := f), ws, h)| + p.minFeeB ==> r <= f
  {
    var r := RequiredFee(tx, |ws|, p);
    LeastPays(tx, |ws|, p);
    PaysMeans(tx, ws, h, p, r);
    forall f: nat | f >= p.minFeeA * |Serialize(tx.(fee := f), ws, h)| + p.minFeeB ensures r <= f {
      PaysMeans(tx, ws, h, p, f);
    }
  }

  const MAX_PLACEHOLDERS := 256

  /** A key of one repeated byte and a signature of zeros, for each signer. */
  function Placeholders(n: nat): (r: seq<Witness>)
    requires n <= MAX_PLACEHOLDERS
    ensures |r| == n && Signed(r)
  {
    if n == 0 then [] else Placeholders(n - 1) + [(Repeat<byte>(n - 1, 32), Repeat<byte>(0, 64))]
  }

  /** The bytes that carry a fee need what their size needs. */
  lemma BytesNeed(tx: UnsignedTx, dummy: seq<Witness>, p: ProtocolParams, h: Hash, size: nat, fee: nat)
    requires Signed(dummy) && size == SizeWithoutFee(tx, |dummy|)
    ensures MinFee(|Serialize(tx.(fee := fee), dummy, h)|, p) == Needed(size, p, fee)
  {
    SizeIsLength(tx.(fee := fee), dummy, h);
    SizeCarrying(tx, |dummy|, fee);
  }

  lemma SizeCarrying(tx: UnsignedTx, witnesses: nat, fee: nat)
    ensures SerializedSize(tx.(fee := fee), witnesses) == SizeWithoutFee(tx, witnesses) + IntSize(fee)
  {
  }

  /** One turn of the loop: the fee rises to what is needed, or stands. */
  lemma FeeStep(size: nat, p: ProtocolParams, fee: nat, needed: nat)
    requires fee <= FeeBound(size, p) && needed == Needed(size, p, fee)
    ensures needed <= FeeBound(size, p)
    ensures FeeFrom(size, p, fee) == if needed <= fee then fee else FeeFrom(size, p, needed)
  {
    NeededBounded(size, p, fee);
  }

  /** `required_fee`: terminates for every transaction and every parameters; a 257th signer has no placeholder. */
  method ComputeRequiredFee(tx: UnsignedTx, witnesses: nat, p: ProtocolParams, h: Hash)
    returns (r: Result<nat, string>)
    ensures r == if witnesses > 256 then Err("bytes must be in range(0, 256)") else Ok(RequiredFee(tx, witnesses, p))
  {
    if witnesses > MAX_PLACEHOLDERS {
      return Err("bytes must be in range(0, 256)");
    }
    var dummy := Placeholders(witnesses);
    ghost var size := SizeWithoutFee(tx, witnesses);
    var fee: nat := 0;
    while true
      invariant fee <= FeeBound(size, p) && FeeFrom(size, p, fee) == LeastFee(size, p)
      decreases FeeBound(size, p) - fee
    {
      var needed := MinFee(|Serialize(tx.(fee := fee), dummy, h)|, p);
      BytesNeed(tx, dummy, p, h, size, fee);
      FeeStep(size, p, fee, needed);
      if needed <= fee {
        return Ok(fee);
      }
      fee := needed;
    }
  }

  /** Min-ADA: 160 bytes more than the output takes, each at the price of a byte of ledger. */
  lemma MinLovelaceMeans(o: TxOut, p: ProtocolParams)
    ensures MinLovelace(o, p)
         == (160 + |Cbor.Encode(Cbor.List([Cbor.Raw(o.address), Cbor.Int(o.lovelace)]))|) * p.coinsPerUtxoByte
  {
    PairLength(o.address, Cbor.Int(o.lovelace));
    IntLength(o.lovelace);
  }

  // --- a deposit, in bytes --------------------------------------------------

  lemma OneChunk(memo: string)
    requires |memo| == 60 && forall k :: 0 <= k < |memo| ==> memo[k] as int < 0x80
    ensures CardanoMemo.Chunks(memo) == [memo]
  {
    AsciiChunk("", memo);
    assert "" + memo == memo;
  }

  lemma {:induction false} AsciiBytes(s: string)
    requires forall k :: 0 <= k < |s| ==> s[k] as int < 0x80
    ensures |Utf8.Encode(s)| == |s|
  {
    if s != "" { AsciiBytes(s[1..]); }
  }

  lemma {:induction false} AsciiChunk(current: string, memo: string)
    requires |current| + |memo| <= 64 && forall k :: 0 <= k < |current + memo| ==> (current + memo)[k] as int < 0x80
    ensures CardanoMemo.ChunksFrom(current, memo) == [current + memo]
    decreases |memo|
  {
    if memo != "" {
      var next := current + [memo[0]];
      assert next + memo[1..] == current + memo;
      assert next == (current + memo)[..|next|];
      AsciiBytes(next);
      AsciiChunk(next, memo[1..]);
    } else {
      assert current + memo == current;
    }
  }

  /** A deposit of two ADA with a memo of 60 characters, from one coin, pays 170209 lovelace on mainnet. */
  lemma DepositFee(i: TxIn, o: TxOut, memo: string)
    requires |i.txid| == 32 && i.index == 0 && |o.address| == 57 && o.lovelace == 2_000_000
    requires |memo| == 60 && forall k :: 0 <= k < |memo| ==> memo[k] as int < 0x80
    ensures RequiredFee(UnsignedTx([i], [o], 0, 140_000_000, Some(memo)), 1, CardanoFees.MAINNET) == 170_209
  {
    var tx := UnsignedTx([i], [o], 0, 140_000_000, Some(memo));
    OneChunk(memo);
    AsciiBytes(memo);
    assert InputsSize([i]) == 36 by { assert [i][1..] == []; }
    assert OutputsSize([o]) == 65 by { assert [o][1..] == []; }
    assert TextsSize([memo]) == 62 by { assert [memo][1..] == []; }
    DepositRequired(SizeWithoutFee(tx, 1), CardanoFees.MAINNET);
  }

  lemma DepositRequired(size: nat, p: ProtocolParams)
    requires size == 332 && p.minFeeA == 44 && p.minFeeB == 155_381
    ensures LeastFee(size, p) == 170_209
  {
    CardanoFees.ExactIsLeast(size, p, 170_209, MinFee(size + 1, p));
  }
}
