/** Parsing and serializing v4 transactions invert each other. */
module ZcashRoundTrip {
  import opened Common
  import opened LittleEndian
  import opened ZcashTx

  /** `b` reads `x` at offset `i`. */
  predicate Has(b: seq<byte>, i: nat, x: seq<byte>) {
    i + |x| <= |b| && b[i..i + |x|] == x
  }

  lemma HasSplit(b: seq<byte>, i: nat, x: seq<byte>, y: seq<byte>)
    ensures Has(b, i, x + y) <==> Has(b, i, x) && Has(b, i + |x|, y)
  {
    if i + |x| + |y| <= |b| {
      var whole := b[i..i + |x| + |y|];
      assert whole[..|x|] == b[i..i + |x|] && whole[|x|..] == b[i + |x|..i + |x| + |y|];
      assert (x + y)[..|x|] == x && (x + y)[|x|..] == y;
      assert whole == whole[..|x|] + whole[|x|..];
    }
  }

  function Past(c: Cursor, n: nat): Cursor { c.(i := c.i + n) }

  // --- forward: what is there is read ---------------------------------------

  lemma TakeHas(b: seq<byte>, c: Cursor, x: seq<byte>)
    requires Has(b, c.i, x)
    ensures Take(b, c, |x|) == (x, Past(c, |x|))
  {
  }

  lemma TakeIntHas(b: seq<byte>, c: Cursor, n: nat, k: nat)
    requires Has(b, c.i, Le(n, k)) && Fits(n, k)
    ensures TakeInt(b, c, k) == (n, Past(c, k))
  {
    TakeHas(b, c, Le(n, k));
    FromLeOfLe(n, k);
  }

  lemma VarintHas(b: seq<byte>, c: Cursor, n: nat)
    requires n <= MAX_VARINT && Has(b, c.i, Varint(n))
    ensures ReadVarint(b, c) == Ok((n, Past(c, |Varint(n)|)))
  {
    assert b[c.i] == b[c.i..c.i + |Varint(n)|][0];
    if n >= 0xFD {
      HasSplit(b, c.i, [0xFD], Le(n, 2));
      FitsBounds(n);
      TakeIntHas(b, Past(c, 1), n, 2);
    }
  }

  /** A transaction input as it must be for its bytes to be read back. */
  predicate GoodIn(x: TxIn) { InRangeIn(x) && |x.prevTxid| == 32 }

  lemma InHas(b: seq<byte>, c: Cursor, x: TxIn)
    requires GoodIn(x) && Has(b, c.i, InBytes(x))
    ensures ReadIn(b, c) == Ok((x, Past(c, |InBytes(x)|)))
  {
    FivePieces(b, c.i, x.prevTxid, Le(x.vout, 4), Varint(|x.scriptSig|), x.scriptSig, Le(x.sequence, 4));
    InPieces(b, c, x, Varint(|x.scriptSig|));
  }

  lemma InPieces(b: seq<byte>, c: Cursor, x: TxIn, v: seq<byte>)
    requires GoodIn(x) && v == Varint(|x.scriptSig|)
    requires Has(b, c.i, x.prevTxid) && Has(b, c.i + 32, Le(x.vout, 4)) && Has(b, c.i + 36, v)
    requires Has(b, c.i + 36 + |v|, x.scriptSig) && Has(b, c.i + 36 + |v| + |x.scriptSig|, Le(x.sequence, 4))
    ensures ReadIn(b, c) == Ok((x, Past(c, 40 + |v| + |x.scriptSig|)))
  {
    var c1, c2 := Past(c, 32), Past(c, 36);
    var c3 := Past(c2, |v|);
    var c4 := Past(c3, |x.scriptSig|);
    TakeHas(b, c, x.prevTxid);
    TakeIntHas(b, c1, x.vout, 4);
    VarintHas(b, c2, |x.scriptSig|);
    TakeHas(b, c3, x.scriptSig);
    TakeIntHas(b, c4, x.sequence, 4);
    InSteps(b, c, x, c1, c2, c3, c4, Past(c4, 4));
  }

  lemma InSteps(b: seq<byte>, c: Cursor, x: TxIn, c1: Cursor, c2: Cursor, c3: Cursor, c4: Cursor, c5: Cursor)
    requires x.vout >= 0 && x.sequence >= 0
    requires Take(b, c, 32) == (x.prevTxid, c1) && TakeInt(b, c1, 4) == (x.vout, c2)
    requires ReadVarint(b, c2) == Ok((|x.scriptSig|, c3)) && Take(b, c3, |x.scriptSig|) == (x.scriptSig, c4)
    requires TakeInt(b, c4, 4) == (x.sequence, c5)
    ensures ReadIn(b, c) == Ok((x, c5))
  {
  }

  lemma FivePieces(b: seq<byte>, i: nat, p: seq<byte>, q: seq<byte>, v: seq<byte>, s: seq<byte>, t: seq<byte>)
    requires Has(b, i, p + q + v + s + t)
    ensures Has(b, i, p) && Has(b, i + |p|, q) && Has(b, i + |p| + |q|, v)
    ensures Has(b, i + |p| + |q| + |v|, s) && Has(b, i + |p| + |q| + |v| + |s|, t)
  {
    HasSplit(b, i, p + q + v + s, t);
    HasSplit(b, i, p + q + v, s);
    HasSplit(b, i, p + q, v);
    HasSplit(b, i, p, q);
  }

  lemma OutHas(b: seq<byte>, c: Cursor, x: TxOut)
    requires InRangeOut(x) && Has(b, c.i, OutBytes(x))
    ensures ReadOut(b, c) == Ok((x, Past(c, |OutBytes(x)|)))
  {
    var v := Varint(|x.script|);
    HasSplit(b, c.i, Le(x.value, 8) + v, x.script);
    HasSplit(b, c.i, Le(x.value, 8), v);
    OutPieces(b, c, x, v);
  }

  lemma OutPieces(b: seq<byte>, c: Cursor, x: TxOut, v: seq<byte>)
    requires InRangeOut(x) && v == Varint(|x.script|)
    requires Has(b, c.i, Le(x.value, 8)) && Has(b, c.i + 8, v) && Has(b, c.i + 8 + |v|, x.script)
    ensures ReadOut(b, c) == Ok((x, Past(c, 8 + |v| + |x.script|)))
  {
    TakeIntHas(b, c, x.value, 8);
    VarintHas(b, Past(c, 8), |x.script|);
    TakeHas(b, Past(c, 8 + |v|), x.script);
  }

  /** Wherever `x` lies encoded, `read` finds it and moves just past it. */
  ghost predicate Reads<T(!new)>(enc: T --> seq<byte>, read: Reader<T>, b: seq<byte>, x: T) {
    enc.requires(x) && forall c: Cursor :: Has(b, c.i, enc(x)) ==> read(b, c) == Ok((x, Past(c, |enc(x)|)))
  }

  ghost predicate ReadsAll<T(!new)>(enc: T --> seq<byte>, read: Reader<T>, b: seq<byte>, xs: seq<T>) {
    forall k :: 0 <= k < |xs| ==> Reads(enc, read, b, xs[k])
  }

  lemma {:induction false} AllHave<T(!new)>(enc: T --> seq<byte>, read: Reader<T>, b: seq<byte>, c: Cursor, xs: seq<T>)
    requires forall k :: 0 <= k < |xs| ==> enc.requires(xs[k])
    requires ReadsAll(enc, read, b, xs)
    requires Has(b, c.i, All(enc, xs))
    ensures ReadAll(read, b, c, |xs|) == Ok((xs, Past(c, |All(enc, xs)|)))
    decreases |xs|
  {
    if xs != [] {
      var first, rest := enc(xs[0]), All(enc, xs[1..]);
      HasSplit(b, c.i, first, rest);
      var d := Past(c, |first|);
      ReadsFirst(enc, read, b, xs);
      ReadsOne(enc, read, b, c, xs[0]);
      AllHave(enc, read, b, d, xs[1..]);
      ReadAllStep(read, b, c, xs, d, Past(d, |rest|));
    }
  }

  lemma ReadsFirst<T(!new)>(enc: T --> seq<byte>, read: Reader<T>, b: seq<byte>, xs: seq<T>)
    requires xs != [] && ReadsAll(enc, read, b, xs)
    ensures Reads(enc, read, b, xs[0]) && ReadsAll(enc, read, b, xs[1..])
  {
  }

  lemma ReadsOne<T(!new)>(enc: T --> seq<byte>, read: Reader<T>, b: seq<byte>, c: Cursor, x: T)
    requires Reads(enc, read, b, x) && Has(b, c.i, enc(x))
    ensures read(b, c) == Ok((x, Past(c, |enc(x)|)))
  {
  }

  lemma ReadAllStep<T>(read: Reader<T>, b: seq<byte>, c: Cursor, xs: seq<T>, d: Cursor, e: Cursor)
    requires xs != [] && read(b, c) == Ok((xs[0], d)) && ReadAll(read, b, d, |xs| - 1) == Ok((xs[1..], e))
    ensures ReadAll(read, b, c, |xs|) == Ok((xs, e))
  {
    assert [xs[0]] + xs[1..] == xs;
  }

  lemma TailHas(b: seq<byte>, c: Cursor, lockTime: nat, expiryHeight: nat)
    requires Fits(lockTime, 4) && Fits(expiryHeight, 4)
    requires Has(b, c.i, Tail(lockTime, expiryHeight)) && c.i + |Tail(lockTime, expiryHeight)| == |b|
    ensures ReadTail(b, c) == Ok(((lockTime, expiryHeight), c.(i := |b|)))
  {
    FivePieces(b, c.i, Le(lockTime, 4), Le(expiryHeight, 4), Le(0, 8), [0], [0] + [0]);
    TailPieces(b, c, lockTime, expiryHeight);
  }

  lemma TailPieces(b: seq<byte>, c: Cursor, lockTime: nat, expiryHeight: nat)
    requires Fits(lockTime, 4) && Fits(expiryHeight, 4)
    requires Has(b, c.i, Le(lockTime, 4)) && Has(b, c.i + 4, Le(expiryHeight, 4)) && Has(b, c.i + 8, Le(0, 8))
    requires Has(b, c.i + 16, [0]) && Has(b, c.i + 17, [0] + [0]) && c.i + 19 == |b|
    ensures ReadTail(b, c) == Ok(((lockTime, expiryHeight), c.(i := |b|)))
  {
    HasSplit(b, c.i + 17, [0], [0]);
    FitsBounds(0);
    TakeIntHas(b, c, lockTime, 4);
    TakeIntHas(b, Past(c, 4), expiryHeight, 4);
    TakeIntHas(b, Past(c, 8), 0, 8);
    ZerosHave(b, Past(c, 16));
  }

  lemma ZerosHave(b: seq<byte>, c: Cursor)
    requires Has(b, c.i, [0]) && Has(b, c.i + 1, [0]) && Has(b, c.i + 2, [0])
    ensures ReadSections(b, c) == Ok((true, Past(c, 3)))
  {
    VarintHas(b, c, 0);
    VarintHas(b, Past(c, 1), 0);
    VarintHas(b, Past(c, 2), 0);
  }

  lemma HeadHas(b: seq<byte>)
    requires Has(b, 0, Head())
    ensures ReadHead(b) == Ok(Past(START, 8))
  {
    HasSplit(b, 0, Le(V4_HEADER, 4), Le(V4_VERSION_GROUP, 4));
    FitsBounds(V4_HEADER);
    FitsBounds(V4_VERSION_GROUP);
    TakeIntHas(b, START, V4_HEADER, 4);
    TakeIntHas(b, Past(START, 4), V4_VERSION_GROUP, 4);
  }

  lemma InsRead(b: seq<byte>, ins: seq<TxIn>)
    requires forall k :: 0 <= k < |ins| ==> GoodIn(ins[k])
    ensures ReadsAll(InBytes, ReadIn, b, ins)
  {
    forall k, c: Cursor | 0 <= k < |ins| && Has(b, c.i, InBytes(ins[k]))
      ensures ReadIn(b, c) == Ok((ins[k], Past(c, |InBytes(ins[k])|)))
    {
      InHas(b, c, ins[k]);
    }
  }

  lemma OutsRead(b: seq<byte>, outs: seq<TxOut>)
    requires forall k :: 0 <= k < |outs| ==> InRangeOut(outs[k])
    ensures ReadsAll(OutBytes, ReadOut, b, outs)
  {
    forall k, c: Cursor | 0 <= k < |outs| && Has(b, c.i, OutBytes(outs[k]))
      ensures ReadOut(b, c) == Ok((outs[k], Past(c, |OutBytes(outs[k])|)))
    {
      OutHas(b, c, outs[k]);
    }
  }

  lemma CountedHave<T(!new)>(enc: T --> seq<byte>, read: Reader<T>, b: seq<byte>, c: Cursor, xs: seq<T>, d: Cursor,
                             x: seq<byte>, e: Cursor)
    requires ReadVarint(b, c) == Ok((|xs|, d))
    requires forall k :: 0 <= k < |xs| ==> enc.requires(xs[k])
    requires ReadsAll(enc, read, b, xs)
    requires x == All(enc, xs) && Has(b, d.i, x) && e == Past(d, |x|)
    ensures ReadCounted(read, b, c) == Ok((xs, e))
  {
    AllHave(enc, read, b, d, xs);
  }

  lemma InputsHave(b: seq<byte>, c: Cursor, ins: seq<TxIn>, n: seq<byte>, x: seq<byte>, d: Cursor, e: Cursor)
    requires |ins| <= MAX_VARINT && n == Varint(|ins|)
    requires forall k :: 0 <= k < |ins| ==> InRangeIn(ins[k])
    requires forall k :: 0 <= k < |ins| ==> |ins[k].prevTxid| == 32
    requires x == All(InBytes, ins) && Has(b, c.i, n) && d == Past(c, |n|) && Has(b, d.i, x) && e == Past(d, |x|)
    ensures ReadCounted(ReadIn, b, c) == Ok((ins, e))
  {
    InsRead(b, ins);
    VarintHas(b, c, |ins|);
    CountedHave(InBytes, ReadIn, b, c, ins, d, x, e);
  }

  lemma OutputsHave(b: seq<byte>, c: Cursor, outs: seq<TxOut>, n: seq<byte>, x: seq<byte>, d: Cursor, e: Cursor)
    requires |outs| <= MAX_VARINT && n == Varint(|outs|)
    requires forall k :: 0 <= k < |outs| ==> InRangeOut(outs[k])
    requires x == All(OutBytes, outs) && Has(b, c.i, n) && d == Past(c, |n|) && Has(b, d.i, x) && e == Past(d, |x|)
    ensures ReadCounted(ReadOut, b, c) == Ok((outs, e))
  {
    OutsRead(b, outs);
    VarintHas(b, c, |outs|);
    CountedHave(OutBytes, ReadOut, b, c, outs, d, x, e);
  }

  /** Every in-range transaction is read back, with every length prefix minimal and nothing clipped. */
  lemma ParseOfSerialize(tx: TxV4)
    requires InRange(tx) && forall k :: 0 <= k < |tx.inputs| ==> |tx.inputs[k].prevTxid| == 32
    ensures Parse(Bytes(tx)) == Ok((tx, Cursor(|Bytes(tx)|, true, true)))
  {
    ParsePieces(tx, Bytes(tx), Varint(|tx.inputs|), All(InBytes, tx.inputs), Varint(|tx.outputs|),
                All(OutBytes, tx.outputs));
  }

  lemma ParsePieces(tx: TxV4, b: seq<byte>, n: seq<byte>, x: seq<byte>, m: seq<byte>, y: seq<byte>)
    requires InRange(tx) && forall k :: 0 <= k < |tx.inputs| ==> |tx.inputs[k].prevTxid| == 32
    requires n == Varint(|tx.inputs|) && x == All(InBytes, tx.inputs)
    requires m == Varint(|tx.outputs|) && y == All(OutBytes, tx.outputs)
    requires b == Head() + n + x + m + y + Tail(tx.lockTime, tx.expiryHeight)
    ensures Parse(b) == Ok((tx, Cursor(|b|, true, true)))
  {
    var c1, c2, c3 := PieceOffsets(b, Head(), n, x, m, y, Tail(tx.lockTime, tx.expiryHeight));
    HeadHas(b);
    InputsHave(b, c1, tx.inputs, n, x, Past(c1, |n|), c2);
    OutputsHave(b, c2, tx.outputs, m, y, Past(c2, |m|), c3);
    EndSteps(b, tx, c1, c2, c3);
  }

  lemma PieceOffsets(b: seq<byte>, h: seq<byte>, n: seq<byte>, x: seq<byte>, m: seq<byte>, y: seq<byte>, t: seq<byte>)
    returns (c1: Cursor, c2: Cursor, c3: Cursor)
    requires b == h + n + x + m + y + t && |h| == 8
    ensures Has(b, 0, h) && c1 == Past(START, 8) && Has(b, c1.i, n) && Has(b, c1.i + |n|, x)
    ensures c2 == Past(c1, |n| + |x|) && Has(b, c2.i, m) && Has(b, c2.i + |m|, y)
    ensures c3 == Past(c2, |m| + |y|) && Has(b, c3.i, t) && c3.i + |t| == |b|
    ensures c3.(i := |b|) == Cursor(|b|, true, true)
  {
    assert Has(b, 0, h + n + x + m + y + t);
    HasSplit(b, 0, h + n + x + m + y, t);
    HasSplit(b, 0, h + n + x + m, y);
    HasSplit(b, 0, h + n + x, m);
    HasSplit(b, 0, h + n, x);
    HasSplit(b, 0, h, n);
    c1 := Past(START, 8);
    c2 := Past(c1, |n| + |x|);
    c3 := Past(c2, |m| + |y|);
  }

  lemma EndSteps(b: seq<byte>, tx: TxV4, c1: Cursor, c2: Cursor, c3: Cursor)
    requires ReadHead(b) == Ok(c1) && ReadCounted(ReadIn, b, c1) == Ok((tx.inputs, c2))
    requires ReadCounted(ReadOut, b, c2) == Ok((tx.outputs, c3))
    requires InRange(tx) && Has(b, c3.i, Tail(tx.lockTime, tx.expiryHeight))
             && c3.i + |Tail(tx.lockTime, tx.expiryHeight)| == |b|
    ensures Parse(b) == Ok((tx, c3.(i := |b|)))
  {
    TailHas(b, c3, tx.lockTime, tx.expiryHeight);
  }

  // --- backward: what is read was there -------------------------------------

  /**
   * The reader moved from `c` to `d`. Unless it ran past the end, it read `x`:
   * in at least as many bytes as `x` has, and in those very bytes exactly when
   * every length prefix was minimal.
   */
  predicate Span(b: seq<byte>, c: Cursor, d: Cursor, x: seq<byte>) {
    && c.i <= d.i
    && (d.i <= |b| ==>
          && d.inside == c.inside
          && c.i + |x| <= d.i
          && (d.minimal <==> c.minimal && Has(b, c.i, x) && c.i + |x| == d.i))
  }

  lemma SpanJoin(b: seq<byte>, c: Cursor, e: Cursor, d: Cursor, x: seq<byte>, y: seq<byte>)
    requires Span(b, c, e, x) && Span(b, e, d, y)
    ensures Span(b, c, d, x + y)
  {
    HasSplit(b, c.i, x, y);
  }

  lemma TakeSpan(b: seq<byte>, c: Cursor, n: nat)
    ensures var (x, d) := Take(b, c, n); (d.i <= |b| ==> |x| == n) && Span(b, c, d, x)
  {
  }

  lemma TakeIntSpan(b: seq<byte>, c: Cursor, k: nat)
    ensures var (n, d) := TakeInt(b, c, k); (d.i <= |b| ==> Fits(n, k)) && Span(b, c, d, Le(n, k))
  {
    TakeSpan(b, c, k);
    LeOfFromLe(Take(b, c, k).0);
  }

  lemma VarintSpan(b: seq<byte>, c: Cursor)
    requires ReadVarint(b, c).Ok?
    ensures var (n, d) := ReadVarint(b, c).value;
            c.i <= d.i && (d.i <= |b| ==> n <= MAX_VARINT && Span(b, c, d, Varint(n)))
  {
    if b[c.i] < 0xFD {
      assert b[c.i..c.i + 1] == [b[c.i]];
    } else {
      var c1 := Cursor(c.i + 1, c.inside, c.minimal);
      TakeIntSpan(b, c1, 2);
      var (n, d) := TakeInt(b, c1, 2);
      FitsBounds(n);
      if d.i <= |b| && n >= 0xFD {
        assert b[c.i..c.i + 1] == [0xFD];
        SpanJoin(b, c, c1, d, [0xFD], Le(n, 2));
      }
    }
  }

  /** What `read` gets is good, and its encoding is what was read. */
  ghost predicate Spans<T(!new)>(good: T -> bool, enc: T --> seq<byte>, read: Reader<T>, b: seq<byte>) {
    forall c: Cursor :: read(b, c).Ok? ==>
      var (x, d) := read(b, c).value;
      c.i <= d.i && (d.i <= |b| ==> good(x) && enc.requires(x) && Span(b, c, d, enc(x)))
  }

  lemma InSpan(b: seq<byte>, c: Cursor)
    requires ReadIn(b, c).Ok?
    ensures var (x, d) := ReadIn(b, c).value; c.i <= d.i && (d.i <= |b| ==> GoodIn(x) && Span(b, c, d, InBytes(x)))
  {
    var (p, c1) := Take(b, c, 32);
    var (vout, c2) := TakeInt(b, c1, 4);
    var (n, c3) := ReadVarint(b, c2).value;
    var (s, c4) := Take(b, c3, n);
    var (sequence, c5) := TakeInt(b, c4, 4);
    TakeSpan(b, c, 32);
    TakeIntSpan(b, c1, 4);
    VarintSpan(b, c2);
    TakeSpan(b, c3, n);
    TakeIntSpan(b, c4, 4);
    if c5.i <= |b| {
      SpanJoin(b, c, c1, c2, p, Le(vout, 4));
      SpanJoin(b, c, c2, c3, p + Le(vout, 4), Varint(n));
      SpanJoin(b, c, c3, c4, p + Le(vout, 4) + Varint(n), s);
      SpanJoin(b, c, c4, c5, p + Le(vout, 4) + Varint(n) + s, Le(sequence, 4));
    }
  }

  lemma OutSpan(b: seq<byte>, c: Cursor)
    requires ReadOut(b, c).Ok?
    ensures var (x, d) := ReadOut(b, c).value;
            c.i <= d.i && (d.i <= |b| ==> InRangeOut(x) && Span(b, c, d, OutBytes(x)))
  {
    var (value, c1) := TakeInt(b, c, 8);
    var (n, c2) := ReadVarint(b, c1).value;
    var (s, c3) := Take(b, c2, n);
    TakeIntSpan(b, c, 8);
    VarintSpan(b, c1);
    TakeSpan(b, c2, n);
    if c3.i <= |b| {
      SpanJoin(b, c, c1, c2, Le(value, 8), Varint(n));
      SpanJoin(b, c, c2, c3, Le(value, 8) + Varint(n), s);
    }
  }

  lemma {:induction false} AllSpan<T(!new)>(good: T -> bool, enc: T --> seq<byte>, read: Reader<T>, b: seq<byte>,
                                            c: Cursor, n: nat)
    requires Spans(good, enc, read, b) && ReadAll(read, b, c, n).Ok?
    ensures var (xs, d) := ReadAll(read, b, c, n).value;
            && c.i <= d.i && |xs| == n
            && (d.i <= |b| ==>
                  && (forall k :: 0 <= k < n ==> good(xs[k]) && enc.requires(xs[k]))
                  && Span(b, c, d, All(enc, xs)))
    decreases n
  {
    if n > 0 {
      var (x, e) := read(b, c).value;
      AllSpan(good, enc, read, b, e, n - 1);
      var (ys, d) := ReadAll(read, b, e, n - 1).value;
      if d.i <= |b| {
        SpanJoin(b, c, e, d, enc(x), All(enc, ys));
        assert ([x] + ys)[1..] == ys;
      }
    }
  }

  lemma CountedSpan<T(!new)>(good: T -> bool, enc: T --> seq<byte>, read: Reader<T>, b: seq<byte>, c: Cursor)
    requires Spans(good, enc, read, b) && ReadCounted(read, b, c).Ok?
    ensures var (xs, d) := ReadCounted(read, b, c).value;
            && c.i <= d.i
            && (d.i <= |b| ==>
                  && |xs| <= MAX_VARINT
                  && (forall k :: 0 <= k < |xs| ==> good(xs[k]) && enc.requires(xs[k]))
                  && Span(b, c, d, Varint(|xs|) + All(enc, xs)))
  {
    var (n, e) := ReadVarint(b, c).value;
    VarintSpan(b, c);
    AllSpan(good, enc, read, b, e, n);
    var (xs, d) := ReadAll(read, b, e, n).value;
    if d.i <= |b| {
      SpanJoin(b, c, e, d, Varint(n), All(enc, xs));
    }
  }

  lemma ItemSpans(b: seq<byte>)
    ensures Spans(GoodIn, InBytes, ReadIn, b) && Spans(InRangeOut, OutBytes, ReadOut, b)
  {
    forall c: Cursor | ReadIn(b, c).Ok?
      ensures var (x, d) := ReadIn(b, c).value; c.i <= d.i && (d.i <= |b| ==> GoodIn(x) && Span(b, c, d, InBytes(x)))
    {
      InSpan(b, c);
    }
    forall c: Cursor | ReadOut(b, c).Ok?
      ensures var (x, d) := ReadOut(b, c).value;
              c.i <= d.i && (d.i <= |b| ==> InRangeOut(x) && Span(b, c, d, OutBytes(x)))
    {
      OutSpan(b, c);
    }
  }

  lemma HeadSpan(b: seq<byte>)
    requires ReadHead(b).Ok?
    ensures Span(b, START, ReadHead(b).value, Head())
  {
    var (header, c1) := TakeInt(b, START, 4);
    var (group, c2) := TakeInt(b, c1, 4);
    TakeIntSpan(b, START, 4);
    TakeIntSpan(b, c1, 4);
    SpanJoin(b, START, c1, c2, Le(header, 4), Le(group, 4));
  }

  lemma SectionsSpan(b: seq<byte>, c: Cursor)
    requires ReadSections(b, c).Ok? && ReadSections(b, c).value.0
    ensures Span(b, c, ReadSections(b, c).value.1, [0] + [0] + [0])
  {
    var (n1, c1) := ReadVarint(b, c).value;
    var (n2, c2) := ReadVarint(b, c1).value;
    var (n3, c3) := ReadVarint(b, c2).value;
    VarintSpan(b, c);
    VarintSpan(b, c1);
    VarintSpan(b, c2);
    if c3.i <= |b| {
      SpanJoin(b, c, c1, c2, [0], [0]);
      SpanJoin(b, c, c2, c3, [0] + [0], [0]);
    }
  }

  lemma TailSpan(b: seq<byte>, c: Cursor)
    requires ReadTail(b, c).Ok?
    ensures var ((lockTime, expiryHeight), d) := ReadTail(b, c).value;
            && d.i == |b| && Fits(lockTime, 4) && Fits(expiryHeight, 4)
            && Span(b, c, d, Tail(lockTime, expiryHeight))
  {
    var (lockTime, c1) := TakeInt(b, c, 4);
    var (expiryHeight, c2) := TakeInt(b, c1, 4);
    var (balance, c3) := TakeInt(b, c2, 8);
    var d := ReadSections(b, c3).value.1;
    TakeIntSpan(b, c, 4);
    TakeIntSpan(b, c1, 4);
    TakeIntSpan(b, c2, 8);
    SectionsSpan(b, c3);
    var p, q, z := Le(lockTime, 4), Le(expiryHeight, 4), Le(0, 8);
    SpanJoin(b, c, c1, c2, p, q);
    SpanJoin(b, c, c2, c3, p + q, z);
    SpanJoin(b, c, c3, d, p + q + z, [0] + [0] + [0]);
    assert p + q + z + ([0] + [0] + [0]) == p + q + z + [0] + ([0] + [0]);
  }

  /**
   * Whatever is accepted was never sliced past its end, is in range, and
   * serializes back to the same bytes exactly when every length prefix in it
   * was minimal.
   */
  lemma SerializeOfParse(b: seq<byte>)
    requires Parse(b).Ok?
    ensures var (tx, end) := Parse(b).value;
            && end.i == |b| && end.inside && InRange(tx)
            && (forall k :: 0 <= k < |tx.inputs| ==> |tx.inputs[k].prevTxid| == 32)
            && (Bytes(tx) == b <==> end.minimal)
  {
    var c1, c2, c3 := ListsSpan(b);
    var (tx, d) := Parse(b).value;
    HeadSpan(b);
    TailSpan(b, c3);
    JoinPieces(b, c1, c2, c3, d, Head(), Varint(|tx.inputs|), All(InBytes, tx.inputs), Varint(|tx.outputs|),
               All(OutBytes, tx.outputs),
               Tail(tx.lockTime, tx.expiryHeight));
  }

  /** What the two lists of an accepted transaction read as, and where the reader stood between the parts. */
  lemma ListsSpan(b: seq<byte>) returns (c1: Cursor, c2: Cursor, c3: Cursor)
    requires Parse(b).Ok?
    ensures ReadHead(b) == Ok(c1)
    ensures var (tx, d) := Parse(b).value;
            && ReadTail(b, c3) == Ok(((tx.lockTime, tx.expiryHeight), d))
            && |tx.inputs| <= MAX_VARINT && |tx.outputs| <= MAX_VARINT
            && (forall k :: 0 <= k < |tx.inputs| ==> GoodIn(tx.inputs[k]))
            && (forall k :: 0 <= k < |tx.outputs| ==> InRangeOut(tx.outputs[k]))
            && Span(b, c1, c2, Varint(|tx.inputs|) + All(InBytes, tx.inputs))
            && Span(b, c2, c3, Varint(|tx.outputs|) + All(OutBytes, tx.outputs))
  {
    c1 := ReadHead(b).value;
    c2 := ReadCounted(ReadIn, b, c1).value.1;
    c3 := ReadCounted(ReadOut, b, c2).value.1;
    ItemSpans(b);
    CountedSpan(GoodIn, InBytes, ReadIn, b, c1);
    CountedSpan(InRangeOut, OutBytes, ReadOut, b, c2);
    TailSpan(b, c3);
  }

  lemma JoinPieces(b: seq<byte>, c1: Cursor, c2: Cursor, c3: Cursor, d: Cursor,
                   h: seq<byte>, n: seq<byte>, x: seq<byte>, m: seq<byte>, y: seq<byte>, t: seq<byte>)
    requires Span(b, START, c1, h) && Span(b, c1, c2, n + x) && Span(b, c2, c3, m + y) && Span(b, c3, d, t)
             && d.i == |b|
    ensures d.inside && (h + n + x + m + y + t == b <==> d.minimal)
  {
    SpanJoin(b, START, c1, c2, h, n + x);
    SpanJoin(b, START, c2, c3, h + (n + x), m + y);
    SpanJoin(b, START, c3, d, h + (n + x) + (m + y), t);
    var whole := h + (n + x) + (m + y) + t;
    assert whole == h + n + x + m + y + t;
    assert |whole| == |b| ==> b[0..|whole|] == b;
  }

  /** A transaction that can be serialized comes back from its own bytes exactly when every txid in it has 32 bytes. */
  lemma ParsesBackExactly(tx: TxV4)
    requires InRange(tx)
    ensures (Parse(Bytes(tx)).Ok? && Parse(Bytes(tx)).value.0 == tx)
        <==> forall k :: 0 <= k < |tx.inputs| ==> |tx.inputs[k].prevTxid| == 32
  {
    if forall k :: 0 <= k < |tx.inputs| ==> |tx.inputs[k].prevTxid| == 32 {
      ParseOfSerialize(tx);
    } else if Parse(Bytes(tx)).Ok? {
      SerializeOfParse(Bytes(tx));
    }
  }
}
