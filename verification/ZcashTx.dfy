/** Zcash v4 (Sapling-format) transparent transactions: serializing and parsing. */
module ZcashTx {
  import opened Common
  import opened LittleEndian

  datatype TxIn = TxIn(prevTxid: seq<byte>, vout: int, scriptSig: seq<byte>, sequence: int)

  datatype TxOut = TxOut(value: int, script: seq<byte>)

  datatype TxV4 = TxV4(inputs: seq<TxIn>, outputs: seq<TxOut>, lockTime: int, expiryHeight: int)

  const V4_HEADER := 0x8000_0004
  const V4_VERSION_GROUP := 0x892F_2085
  const MAX_VARINT := 0xFFFF

  // --- serializing ----------------------------------------------------------

  function Varint(n: nat): (r: seq<byte>)
    requires n <= MAX_VARINT
    ensures 1 <= |r| <= 3
  {
    if n < 0xFD then [n] else [0xFD] + Le(n, 2)
  }

  predicate InRangeIn(i: TxIn) { Fits(i.vout, 4) && |i.scriptSig| <= MAX_VARINT && Fits(i.sequence, 4) }

  predicate InRangeOut(o: TxOut) { Fits(o.value, 8) && |o.script| <= MAX_VARINT }

  /** What can be packed at all; anything else raises. */
  predicate InRange(tx: TxV4) {
    && |tx.inputs| <= MAX_VARINT && |tx.outputs| <= MAX_VARINT && Fits(tx.lockTime, 4) && Fits(tx.expiryHeight, 4)
    && (forall k :: 0 <= k < |tx.inputs| ==> InRangeIn(tx.inputs[k]))
    && (forall k :: 0 <= k < |tx.outputs| ==> InRangeOut(tx.outputs[k]))
  }

  function InBytes(i: TxIn): seq<byte>
    requires InRangeIn(i)
  {
    i.prevTxid + Le(i.vout, 4) + Varint(|i.scriptSig|) + i.scriptSig + Le(i.sequence, 4)
  }

  function OutBytes(o: TxOut): seq<byte>
    requires InRangeOut(o)
  {
    Le(o.value, 8) + Varint(|o.script|) + o.script
  }

  function Head(): seq<byte> { Le(V4_HEADER, 4) + Le(V4_VERSION_GROUP, 4) }

  /** Lock time, expiry, no shielded value, and three empty shielded sections. */
  function Tail(lockTime: int, expiryHeight: int): (r: seq<byte>)
    requires Fits(lockTime, 4) && Fits(expiryHeight, 4)
    ensures |r| == 19
  {
    Le(lockTime, 4) + Le(expiryHeight, 4) + Le(0, 8) + [0] + ([0] + [0])
  }

  function Bytes(tx: TxV4): seq<byte>
    requires InRange(tx)
  {
    Head() + Varint(|tx.inputs|) + All(InBytes, tx.inputs) + Varint(|tx.outputs|) + All(OutBytes, tx.outputs)
    + Tail(tx.lockTime, tx.expiryHeight)
  }

  /** The loop over the inputs. */
  method SerializeIns(ins: seq<TxIn>, before: seq<byte>) returns (r: Result<seq<byte>, string>)
    ensures r.Ok? <==> forall k :: 0 <= k < |ins| ==> InRangeIn(ins[k])
    ensures r.Ok? ==> r.value == before + All(InBytes, ins)
  {
    var out := before;
    assert before + [] == before;
    for k := 0 to |ins|
      invariant forall j :: 0 <= j < k ==> InRangeIn(ins[j])
      invariant out == before + All(InBytes, ins[..k])
    {
      var i := ins[k];
      if !Fits(i.vout, 4) || |i.scriptSig| > MAX_VARINT || !Fits(i.sequence, 4) {
        return Err("field out of range");
      }
      assert InRangeIn(i);
      AllNext(InBytes, ins, k, before);
      out := out + InBytes(i);
    }
    assert ins[..|ins|] == ins;
    return Ok(out);
  }

  /** The loop over the outputs. */
  method SerializeOuts(outs: seq<TxOut>, before: seq<byte>) returns (r: Result<seq<byte>, string>)
    ensures r.Ok? <==> forall k :: 0 <= k < |outs| ==> InRangeOut(outs[k])
    ensures r.Ok? ==> r.value == before + All(OutBytes, outs)
  {
    var out := before;
    assert before + [] == before;
    for k := 0 to |outs|
      invariant forall j :: 0 <= j < k ==> InRangeOut(outs[j])
      invariant out == before + All(OutBytes, outs[..k])
    {
      var o := outs[k];
      if !Fits(o.value, 8) || |o.script| > MAX_VARINT {
        return Err("field out of range");
      }
      assert InRangeOut(o);
      AllNext(OutBytes, outs, k, before);
      out := out + OutBytes(o);
    }
    assert outs[..|outs|] == outs;
    return Ok(out);
  }

  /** `serialize_v4`. */
  method SerializeV4(tx: TxV4) returns (r: Result<seq<byte>, string>)
    ensures r.Ok? <==> InRange(tx)
    ensures r.Ok? ==> r.value == Bytes(tx)
  {
    if |tx.inputs| > MAX_VARINT {
      return Err("varint out of range");
    }
    var ins := SerializeIns(tx.inputs, Head() + Varint(|tx.inputs|));
    if ins.Err? {
      return ins;
    }
    if |tx.outputs| > MAX_VARINT {
      return Err("varint out of range");
    }
    var outs := SerializeOuts(tx.outputs, ins.value + Varint(|tx.outputs|));
    if outs.Err? {
      return outs;
    }
    if !Fits(tx.lockTime, 4) || !Fits(tx.expiryHeight, 4) {
      return Err("field out of range");
    }
    return Ok(outs.value + (Le(tx.lockTime, 4) + Le(tx.expiryHeight, 4) + Le(0, 8) + [0] + ([0] + [0])));
  }

  // --- parsing --------------------------------------------------------------

  /**
   * Where the reader stands. Besides the offset, two notes the program does not
   * keep: whether every slice so far lay inside the input, and whether every
   * length prefix so far was in its shortest form.
   */
  datatype Cursor = Cursor(i: nat, inside: bool, minimal: bool)

  /** `raw[i : i + n]`, moving past it. */
  function Take(b: seq<byte>, c: Cursor, n: nat): (seq<byte>, Cursor) {
    (Slice(b, c.i, c.i + n), Cursor(c.i + n, c.inside && c.i + n <= |b|, c.minimal))
  }

  function TakeInt(b: seq<byte>, c: Cursor, n: nat): (nat, Cursor) {
    var (bs, d) := Take(b, c, n);
    (FromLe(bs), d)
  }

  function ReadVarint(b: seq<byte>, c: Cursor): Result<(nat, Cursor), string> {
    if c.i >= |b| then Err("index out of range")
    else if b[c.i] < 0xFD then Ok((b[c.i], Cursor(c.i + 1, c.inside, c.minimal)))
    else if b[c.i] == 0xFD then
      var (n, d) := TakeInt(b, Cursor(c.i + 1, c.inside, c.minimal), 2);
      Ok((n, Cursor(d.i, d.inside, d.minimal && n >= 0xFD)))
    else Err("varint too large for a transparent tx")
  }

  function ReadIn(b: seq<byte>, c: Cursor): Result<(TxIn, Cursor), string> {
    var (prevTxid, c1) := Take(b, c, 32);
    var (vout, c2) := TakeInt(b, c1, 4);
    var slen := ReadVarint(b, c2);
    if slen.Err? then Err(slen.error)
    else
      var (scriptSig, c4) := Take(b, slen.value.1, slen.value.0);
      var (sequence, c5) := TakeInt(b, c4, 4);
      Ok((TxIn(prevTxid, vout, scriptSig, sequence), c5))
  }

  function ReadOut(b: seq<byte>, c: Cursor): Result<(TxOut, Cursor), string> {
    var (value, c1) := TakeInt(b, c, 8);
    var slen := ReadVarint(b, c1);
    if slen.Err? then Err(slen.error)
    else
      var (script, c3) := Take(b, slen.value.1, slen.value.0);
      Ok((TxOut(value, script), c3))
  }

  type Reader<T> = (seq<byte>, Cursor) -> Result<(T, Cursor), string>

  /** `n` items read one after the other. */
  function ReadAll<T>(read: Reader<T>, b: seq<byte>, c: Cursor, n: nat): Result<(seq<T>, Cursor), string>
    decreases n
  {
    if n == 0 then Ok(([], c))
    else
      var first := read(b, c);
      if first.Err? then Err(first.error)
      else Appended([first.value.0], ReadAll(read, b, first.value.1, n - 1))
  }

  function Appended<T>(xs: seq<T>, r: Result<(seq<T>, Cursor), string>): Result<(seq<T>, Cursor), string> {
    if r.Err? then r else Ok((xs + r.value.0, r.value.1))
  }

  /** The counts of the three shielded sections. */
  function ReadSections(b: seq<byte>, c: Cursor): Result<(bool, Cursor), string> {
    var spends := ReadVarint(b, c);
    if spends.Err? then Err(spends.error)
    else
      var outs := ReadVarint(b, spends.value.1);
      if outs.Err? then Err(outs.error)
      else
        var joins := ReadVarint(b, outs.value.1);
        if joins.Err? then Err(joins.error)
        else Ok((spends.value.0 == 0 && outs.value.0 == 0 && joins.value.0 == 0, joins.value.1))
  }

  /** Everything after the outputs: lock time, expiry, and the shielded sections, which must be empty. */
  function ReadTail(b: seq<byte>, c: Cursor): Result<((nat, nat), Cursor), string> {
    var (lockTime, c1) := TakeInt(b, c, 4);
    var (expiryHeight, c2) := TakeInt(b, c1, 4);
    var (valueBalance, c3) := TakeInt(b, c2, 8);
    var empty := ReadSections(b, c3);
    if empty.Err? then Err(empty.error)
    else if valueBalance != 0 || !empty.value.0 then Err("tx carries shielded components")
    else if empty.value.1.i != |b| then Err("trailing bytes after tx")
    else Ok(((lockTime, expiryHeight), empty.value.1))
  }

  const START := Cursor(0, true, true)

  function ReadHead(b: seq<byte>): Result<Cursor, string> {
    var (header, c1) := TakeInt(b, START, 4);
    var (group, c2) := TakeInt(b, c1, 4);
    if header != V4_HEADER || group != V4_VERSION_GROUP then Err("not a v4/Sapling tx") else Ok(c2)
  }

  /** A counted list. */
  function ReadCounted<T>(read: Reader<T>, b: seq<byte>, c: Cursor): Result<(seq<T>, Cursor), string> {
    var n := ReadVarint(b, c);
    if n.Err? then Err(n.error) else ReadAll(read, b, n.value.1, n.value.0)
  }

  /** `parse_v4`, with the reader's final notes. */
  function Parse(b: seq<byte>): Result<(TxV4, Cursor), string> {
    var head := ReadHead(b);
    if head.Err? then Err(head.error)
    else
      var ins := ReadCounted(ReadIn, b, head.value);
      if ins.Err? then Err(ins.error)
      else
        var outs := ReadCounted(ReadOut, b, ins.value.1);
        if outs.Err? then Err(outs.error)
        else
          var tail := ReadTail(b, outs.value.1);
          if tail.Err? then Err(tail.error)
          else Ok((TxV4(ins.value.0, outs.value.0, tail.value.0.0, tail.value.0.1), tail.value.1))
  }

  /** The input loop of `parse_v4`. */
  method ParseIns(b: seq<byte>, c: Cursor, n: nat) returns (r: Result<(seq<TxIn>, Cursor), string>)
    ensures r == ReadAll(ReadIn, b, c, n)
  {
    var inputs: seq<TxIn>, cur := [], c;
    AppendedNothing(ReadAll(ReadIn, b, c, n));
    for k := 0 to n
      invariant ReadAll(ReadIn, b, c, n) == Appended(inputs, ReadAll(ReadIn, b, cur, n - k))
    {
      var i := ReadIn(b, cur);
      if i.Err? {
        return Err(i.error);
      }
      AppendedOne(inputs, i.value.0, ReadAll(ReadIn, b, i.value.1, n - k - 1));
      inputs, cur := inputs + [i.value.0], i.value.1;
    }
    assert inputs + [] == inputs;
    return Ok((inputs, cur));
  }

  /** The output loop of `parse_v4`. */
  method ParseOuts(b: seq<byte>, c: Cursor, n: nat) returns (r: Result<(seq<TxOut>, Cursor), string>)
    ensures r == ReadAll(ReadOut, b, c, n)
  {
    var outputs: seq<TxOut>, cur := [], c;
    AppendedNothing(ReadAll(ReadOut, b, c, n));
    for k := 0 to n
      invariant ReadAll(ReadOut, b, c, n) == Appended(outputs, ReadAll(ReadOut, b, cur, n - k))
    {
      var o := ReadOut(b, cur);
      if o.Err? {
        return Err(o.error);
      }
      AppendedOne(outputs, o.value.0, ReadAll(ReadOut, b, o.value.1, n - k - 1));
      outputs, cur := outputs + [o.value.0], o.value.1;
    }
    assert outputs + [] == outputs;
    return Ok((outputs, cur));
  }

  lemma AppendedNothing<T>(r: Result<(seq<T>, Cursor), string>)
    ensures Appended([], r) == r
  {
    if r.Ok? { assert [] + r.value.0 == r.value.0; }
  }

  lemma AppendedOne<T>(xs: seq<T>, x: T, r: Result<(seq<T>, Cursor), string>)
    ensures Appended(xs, Appended([x], r)) == Appended(xs + [x], r)
  {
    if r.Ok? { assert xs + ([x] + r.value.0) == (xs + [x]) + r.value.0; }
  }

  /** `parse_v4`. */
  method ParseV4(raw: seq<byte>) returns (r: Result<TxV4, string>)
    ensures r == if Parse(raw).Err? then Err(Parse(raw).error) else Ok(Parse(raw).value.0)
  {
    var (header, c1) := TakeInt(raw, START, 4);
    var (group, c2) := TakeInt(raw, c1, 4);
    if header != V4_HEADER || group != V4_VERSION_GROUP {
      return Err("not a v4/Sapling tx");
    }
    var nIn := ReadVarint(raw, c2);
    if nIn.Err? {
      return Err(nIn.error);
    }
    var ins := ParseIns(raw, nIn.value.1, nIn.value.0);
    if ins.Err? {
      return Err(ins.error);
    }
    var nOut := ReadVarint(raw, ins.value.1);
    if nOut.Err? {
      return Err(nOut.error);
    }
    var outs := ParseOuts(raw, nOut.value.1, nOut.value.0);
    if outs.Err? {
      return Err(outs.error);
    }
    var tail := ReadTail(raw, outs.value.1);
    if tail.Err? {
      return Err(tail.error);
    }
    return Ok(TxV4(ins.value.0, outs.value.0, tail.value.0.0, tail.value.0.1));
  }
}
