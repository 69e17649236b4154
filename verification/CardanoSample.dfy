/** One transaction, byte for byte. */
module CardanoSample {
  import opened Common
  import opened CardanoBytes
  import opened CardanoTx
  import CardanoMemo
  import Cbor
  import Sorting
  import Utf8

  function SampleTx(): UnsignedTx {
    UnsignedTx([TxIn([0xBB], 2), TxIn([0xAA], 24)], [TxOut([0xCC], 500)], 7, 9, Some("hi"))
  }

  function SampleAux(): seq<byte> { [0xA1, 0x19, 0x02, 0xA2, 0xA1, 0x63, 0x6D, 0x73, 0x67, 0x81, 0x62, 0x68, 0x69] }

  lemma TwoByteHead(major: nat, n: nat)
    requires major < 8 && 0x100 <= n < 0x1_0000
    ensures Cbor.Head(major, n) == [32 * major + 25, n / 256, n % 256]
  {
    assert n / 256 < 256;
    assert Cbor.BigEndian(n, 2) == Cbor.BigEndian(n / 256, 1) + [n % 256];
    assert Cbor.BigEndian(n / 256, 1) == Cbor.BigEndian(n / 256 / 256, 0) + [n / 256];
  }

  lemma ShortRaw(b: byte)
    ensures Cbor.Encode(Cbor.Raw([b])) == [0x41, b]
  {
  }

  lemma Pair(x: Item, y: Item)
    ensures Cbor.Encode(Cbor.List([x, y])) == [0x82] + Cbor.Encode(x) + Cbor.Encode(y)
  {
    TwoItems(x, y);
  }

  lemma SampleChunks()
    ensures CardanoMemo.Chunks("hi") == ["hi"]
  {
    var h: string, hi: string := "" + ['h'], "h" + ['i'];
    assert h == "h" && hi == "hi" && "hi"[1..] == "i" && "i"[1..] == "";
    SampleText();
    assert CardanoMemo.ChunksFrom(h, "i") == CardanoMemo.ChunksFrom(hi, "");
  }

  lemma SampleText()
    ensures Utf8.Encode("hi") == [0x68, 0x69] && Cbor.Encode(Cbor.Text("hi")) == [0x62, 0x68, 0x69]
  {
    assert "hi"[1..] == "i" && "i"[1..] == "";
  }

  lemma SampleKey()
    ensures Cbor.Encode(Cbor.Text("msg")) == [0x63, 0x6D, 0x73, 0x67]
  {
    MsgLength();
  }

  lemma SampleMemo()
    ensures EncodeAux("hi") == SampleAux()
  {
    var texts := CardanoMemo.Texts(["hi"]);
    SampleChunks();
    assert texts == [Cbor.Text("hi")] by { assert ["hi"][1..] == []; }
    OneItem(Cbor.Text("hi"));
    SampleText();
    SampleKey();
    TwoItems(Cbor.Text("msg"), Cbor.List(texts));
    TwoByteHead(0, 674);
    TwoItems(Cbor.Int(674), Cbor.Map([Cbor.Text("msg"), Cbor.List(texts)]));
  }

  lemma SortOne<T>(x: T, le: (T, T) -> bool)
    ensures Sorting.Sort([x], le) == [x]
  {
    assert [x][1..] == [];
  }

  lemma SortTwo<T>(x: T, y: T, le: (T, T) -> bool)
    requires !le(x, y)
    ensures Sorting.Sort([x, y], le) == [y, x]
  {
    assert [x, y][1..] == [y] && [y][1..] == [];
    SortOne(y, le);
    assert Sorting.Sort([x, y], le) == Sorting.Insert(x, [y], le);
    assert Sorting.Insert(x, [], le) == [x];
  }

  lemma SampleSorted()
    ensures SortedInputs(SampleTx().inputs) == [TxIn([0xAA], 24), TxIn([0xBB], 2)]
  {
    SortTwo(TxIn([0xBB], 2), TxIn([0xAA], 24), TxInLe);
  }

  lemma SampleInput(i: TxIn, b: byte, index: seq<byte>, whole: seq<byte>)
    requires i.txid == [b] && Cbor.Encode(Cbor.Int(i.index)) == index && whole == [0x82, 0x41, b] + index
    ensures Cbor.Encode(InputItem(i)) == whole
  {
    Pair(Cbor.Raw([b]), Cbor.Int(i.index));
    ShortRaw(b);
  }

  lemma SetOfTwo(x: Item, y: Item)
    ensures Cbor.Encode(SetOf([x, y])) == [0xD9, 0x01, 0x02] + ([0x82] + (Cbor.Encode(x) + Cbor.Encode(y)))
  {
    TwoItems(x, y);
    TwoByteHead(6, 258);
  }

  lemma SampleInputs()
    ensures Cbor.Encode(SetOf(Map(InputItem, SortedInputs(SampleTx().inputs))))
         == [0xD9, 0x01, 0x02] + ([0x82] + ([0x82, 0x41, 0xAA, 0x18, 24] + [0x82, 0x41, 0xBB, 2]))
  {
    var a, b := TxIn([0xBB], 2), TxIn([0xAA], 24);
    SampleSorted();
    assert Map(InputItem, [b, a]) == [InputItem(b), InputItem(a)];
    assert Cbor.BigEndian(24, 1) == [24];
    SampleInput(b, 0xAA, [0x18, 24], [0x82, 0x41, 0xAA, 0x18, 24]);
    SampleInput(a, 0xBB, [2], [0x82, 0x41, 0xBB, 2]);
    SetOfTwo(InputItem(b), InputItem(a));
  }

  lemma SampleOutputs()
    ensures Cbor.Encode(Cbor.List(Map(OutputItem, SampleTx().outputs))) == [0x81, 0x82, 0x41, 0xCC, 0x19, 0x01, 0xF4]
  {
    var o := TxOut([0xCC], 500);
    assert Map(OutputItem, [o]) == [OutputItem(o)];
    OneItem(OutputItem(o));
    Pair(Cbor.Raw([0xCC]), Cbor.Int(500));
    ShortRaw(0xCC);
    TwoByteHead(0, 500);
  }

  lemma TwoPairs(i: int, a: Item, j: int, b: Item)
    requires 0 <= i < 24 && 0 <= j < 24
    ensures Cbor.EncodeAll([Cbor.Int(i), a, Cbor.Int(j), b]) == [i] + Cbor.Encode(a) + [j] + Cbor.Encode(b)
  {
    TwoItems(Cbor.Int(i), a);
    TwoItems(Cbor.Int(j), b);
    SmallInt(i);
    SmallInt(j);
    EncodeAllConcat([Cbor.Int(i), a], [Cbor.Int(j), b]);
    assert [Cbor.Int(i), a] + [Cbor.Int(j), b] == [Cbor.Int(i), a, Cbor.Int(j), b];
  }

  lemma FourPairs(a: Item, b: Item, c: Item, d: Item)
    ensures Cbor.EncodeAll([Cbor.Int(0), a, Cbor.Int(1), b, Cbor.Int(2), c, Cbor.Int(3), d])
         == [0] + Cbor.Encode(a) + [1] + Cbor.Encode(b) + ([2] + Cbor.Encode(c) + [3] + Cbor.Encode(d))
  {
    var front, back := [Cbor.Int(0), a, Cbor.Int(1), b], [Cbor.Int(2), c, Cbor.Int(3), d];
    TwoPairs(0, a, 1, b);
    TwoPairs(2, c, 3, d);
    EncodeAllConcat(front, back);
    assert front + back == [Cbor.Int(0), a, Cbor.Int(1), b, Cbor.Int(2), c, Cbor.Int(3), d];
  }

  lemma SampleEntries(tx: UnsignedTx)
    requires tx == SampleTx()
    ensures Cbor.EncodeAll(BodyEntries(tx))
         == [0] + ([0xD9, 0x01, 0x02] + ([0x82] + ([0x82, 0x41, 0xAA, 0x18, 24] + [0x82, 0x41, 0xBB, 2])))
            + [1] + [0x81, 0x82, 0x41, 0xCC, 0x19, 0x01, 0xF4] + ([2] + [7] + [3] + [9])
  {
    SampleInputs();
    SampleOutputs();
    FourPairs(SetOf(Map(InputItem, SortedInputs(tx.inputs))), Cbor.List(Map(OutputItem, tx.outputs)),
              Cbor.Int(tx.fee), Cbor.Int(tx.ttl));
    SmallInt(7);
    SmallInt(9);
  }

  lemma SmallInt(n: byte)
    requires n < 24
    ensures Cbor.Encode(Cbor.Int(n)) == [n]
  {
  }

  lemma SampleMemoEntry(d: Digest, h: Hash)
    requires h(SampleAux()) == d
    ensures Cbor.EncodeAll(MemoEntry(Some("hi"), h)) == [7] + ([0x58, 32] + d)
  {
    SampleMemo();
    TwoItems(Cbor.Int(7), Cbor.Raw(d));
    assert Cbor.BigEndian(32, 1) == [32];
    assert Cbor.Head(2, 32) == [0x58, 32];
    SmallInt(7);
  }

  lemma FiveEntryBody(tx: UnsignedTx, h: Hash)
    requires tx.memo.Some?
    ensures EncodeBody(tx, h) == [0xA5] + (Cbor.EncodeAll(BodyEntries(tx)) + Cbor.EncodeAll(MemoEntry(tx.memo, h)))
  {
    EncodeAllConcat(BodyEntries(tx), MemoEntry(tx.memo, h));
  }

  lemma SampleWitnesses()
    ensures Cbor.Encode(WitnessSet([([0xD1], [0xD2])]))
         == [0xA1, 0, 0xD9, 0x01, 0x02, 0x81, 0x82, 0x41, 0xD1, 0x41, 0xD2]
  {
    var w: Witness := ([0xD1], [0xD2]);
    SortOne(w, WitnessLe);
    assert Map(WitnessItem, [w]) == [WitnessItem(w)];
    OneItem(WitnessItem(w));
    Pair(Cbor.Raw([0xD1]), Cbor.Raw([0xD2]));
    ShortRaw(0xD1);
    ShortRaw(0xD2);
    TwoByteHead(6, 258);
    TwoItems(Cbor.Int(0), SetOf([WitnessItem(w)]));
  }

  lemma Parts(tx: UnsignedTx, ws: seq<Witness>, h: Hash, body: seq<byte>, witnesses: seq<byte>, aux: seq<byte>)
    requires EncodeBody(tx, h) == body && Cbor.Encode(WitnessSet(ws)) == witnesses
    requires Cbor.Encode(Auxiliary(tx.memo)) == aux
    ensures Serialize(tx, ws, h) == [0x84] + body + witnesses + [0xF5] + aux
  {
  }

  lemma SampleBody(tx: UnsignedTx, d: Digest, h: Hash)
    requires h(SampleAux()) == d && tx == SampleTx()
    ensures EncodeBody(tx, h)
         == [0xA5]
            + ([0] + ([0xD9, 0x01, 0x02] + ([0x82] + ([0x82, 0x41, 0xAA, 0x18, 24] + [0x82, 0x41, 0xBB, 2])))
               + [1] + [0x81, 0x82, 0x41, 0xCC, 0x19, 0x01, 0xF4] + ([2] + [7] + [3] + [9])
               + ([7] + ([0x58, 32] + d)))
  {
    SampleEntries(tx);
    SampleMemoEntry(d, h);
    FiveEntryBody(tx, h);
  }

  /** Two inputs out of order, one output, a memo, one witness: the bytes on the wire. */
  lemma SampleSerialized(tx: UnsignedTx, ws: seq<Witness>, d: Digest, h: Hash)
    requires h(SampleAux()) == d && tx == SampleTx() && ws == [([0xD1], [0xD2])]
    ensures Serialize(tx, ws, h)
         == [0x84]
            + ([0xA5]
               + ([0] + ([0xD9, 0x01, 0x02] + ([0x82] + ([0x82, 0x41, 0xAA, 0x18, 24] + [0x82, 0x41, 0xBB, 2])))
                  + [1] + [0x81, 0x82, 0x41, 0xCC, 0x19, 0x01, 0xF4] + ([2] + [7] + [3] + [9])
                  + ([7] + ([0x58, 32] + d))))
            + [0xA1, 0, 0xD9, 0x01, 0x02, 0x81, 0x82, 0x41, 0xD1, 0x41, 0xD2]
            + [0xF5]
            + [0xA1, 0x19, 0x02, 0xA2, 0xA1, 0x63, 0x6D, 0x73, 0x67, 0x81, 0x62, 0x68, 0x69]
  {
    SampleBody(tx, d, h);
    SampleWitnesses();
    SampleMemo();
    Parts(tx, ws, h, EncodeBody(tx, h), Cbor.Encode(WitnessSet(ws)), SampleAux());
  }
}
