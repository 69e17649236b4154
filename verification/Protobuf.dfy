/** The protobuf wire primitives: varints, tags, and fields read into a dictionary. */
module Protobuf {
  import opened Common
  import Rates

  // --- varints --------------------------------------------------------------

  function Varint(n: nat): (r: seq<byte>)
    ensures r != []
  {
    if n < 128 then [n] else [n % 128 + 128] + Varint(n / 128)
  }

  /** `_varint`. */
  method WriteVarint(n: int) returns (r: Result<seq<byte>, string>)
    ensures r == if n < 0 then Err("varint cannot encode a negative number") else Ok(Varint(n))
  {
    if n < 0 {
      return Err("varint cannot encode a negative number");
    }
    var out: seq<byte>, left: nat := [], n;
    while true
      invariant Varint(n) == out + Varint(left)
      decreases left
    {
      var low := left % 128;
      left := left / 128;
      if left == 0 {
        return Ok(out + [low]);
      }
      assert out + ([low + 128] + Varint(left)) == (out + [low + 128]) + Varint(left);
      out := out + [low + 128];
    }
  }

  /** A varint and what follows it. */
  function ReadVarint(bs: seq<byte>): (r: Result<(nat, seq<byte>), string>)
    ensures r.Ok? ==> |r.value.1| < |bs|
    decreases |bs|
  {
    if bs == [] then Err("index out of range")
    else if bs[0] < 128 then Ok((bs[0], bs[1..]))
    else Under(bs[0] - 128, ReadVarint(bs[1..]))
  }

  /** A reading moved up by seven bits, with `low` under it. */
  function Under(low: nat, r: Result<(nat, seq<byte>), string>): Result<(nat, seq<byte>), string> {
    if r.Err? then r else Ok((low + 128 * r.value.0, r.value.1))
  }

  /** A reading moved up to `weight`, which is `1 << shift`, and added to what was read before. */
  function Over(result: nat, weight: nat, r: Result<(nat, seq<byte>), string>): Result<(nat, seq<byte>), string> {
    if r.Err? then r else Ok((result + weight * r.value.0, r.value.1))
  }

  lemma Distributed(weight: nat, low: nat, n: nat)
    ensures weight * (low + 128 * n) == weight * low + weight * 128 * n
  {
  }

  lemma OverUnder(result: nat, weight: nat, low: nat, r: Result<(nat, seq<byte>), string>)
    ensures Over(result, weight, Under(low, r)) == Over(result + weight * low, weight * 128, r)
  {
    if r.Ok? { Distributed(weight, low, r.value.0); }
  }

  /** One turn of the loop of `_read_varint`, which adds the low seven bits of a byte at their weight. */
  lemma VarintLoop(data: seq<byte>, whole: Result<(nat, seq<byte>), string>, at: nat, result: nat, weight: nat,
                   low: nat)
    requires at < |data| && whole == Over(result, weight, ReadVarint(data[at..]))
    requires low == if data[at] < 128 then data[at] else data[at] - 128
    ensures 0 <= weight * low
    ensures data[at] < 128 ==> whole == Ok((result + weight * low, data[at + 1..]))
    ensures data[at] >= 128 ==> whole == Over(result + weight * low, weight * 128, ReadVarint(data[at + 1..]))
  {
    assert data[at..][1..] == data[at + 1..];
    Rates.Scale(0, weight, low);
    if data[at] >= 128 {
      OverUnder(result, weight, low, ReadVarint(data[at + 1..]));
    }
  }

  /** `_read_varint`: the number at offset `i`, and the offset after it. */
  method ReadVarintAt(data: seq<byte>, i: nat) returns (r: Result<(nat, nat), string>)
    requires i <= |data|
    ensures r.Err? ==> ReadVarint(data[i..]) == Err(r.error)
    ensures r.Ok? ==> i < r.value.1 <= |data| && ReadVarint(data[i..]) == Ok((r.value.0, data[r.value.1..]))
  {
    var result: nat, weight: nat, at: nat := 0, 1, i;
    ghost var whole := ReadVarint(data[i..]);
    while true
      invariant i <= at <= |data|
      invariant whole == Over(result, weight, ReadVarint(data[at..]))
      decreases |data| - at
    {
      if at == |data| {
        return Err("index out of range");
      }
      var b: int := data[at];
      var low := if b < 128 then b else b - 128;
      VarintLoop(data, whole, at, result, weight, low);
      result, at := result + weight * low, at + 1;
      if b < 128 {
        return Ok((result, at));
      }
      weight := weight * 128;
    }
  }

  /** Reading inverts writing, for every natural number. */
  lemma {:induction false} ReadOfVarint(n: nat, rest: seq<byte>)
    ensures ReadVarint(Varint(n) + rest) == Ok((n, rest))
  {
    if n < 128 {
      Behind(n, [], rest);
      assert [] + rest == rest;
    } else {
      ReadOfVarint(n / 128, rest);
      Behind(n % 128 + 128, Varint(n / 128), rest);
    }
  }

  lemma Behind(b: byte, bs: seq<byte>, rest: seq<byte>)
    ensures ([b] + bs + rest)[0] == b && ([b] + bs + rest)[1..] == bs + rest
    ensures [b] + [] == [b]
  {
  }

  // --- fields ---------------------------------------------------------------

  function Tag(field: nat, wire: nat): seq<byte>
    requires wire < 8
  {
    Varint(field * 8 + wire)
  }

  function Delimited(field: nat, data: seq<byte>): seq<byte> {
    Tag(field, 2) + Varint(|data|) + data
  }

  datatype Value = Int(n: nat) | Bytes(b: seq<byte>)

  datatype Field = Field(number: nat, value: Value)

  function Wire(f: Field): (r: seq<byte>)
    ensures r != []
  {
    if f.value.Int? then Tag(f.number, 0) + Varint(f.value.n) else Delimited(f.number, f.value.b)
  }

  function WireAll(fs: seq<Field>): seq<byte> { All(Wire, fs) }

  /** `data[i:]`, empty past the end. */
  function From(data: seq<byte>, i: nat): seq<byte> { if i <= |data| then data[i..] else [] }

  /** One field and what follows it. A value running past the end is clipped, as Python's slices are. */
  function ReadField(bs: seq<byte>): (r: Result<(Field, seq<byte>), string>)
    ensures r.Ok? ==> |r.value.1| < |bs|
  {
    var key := ReadVarint(bs);
    if key.Err? then Err(key.error)
    else
      var number, wire := key.value.0 / 8, key.value.0 % 8;
      if wire != 0 && wire != 2 then Err("unsupported protobuf wire type")
      else
        var n := ReadVarint(key.value.1);
        if n.Err? then Err(n.error)
        else if wire == 0 then Ok((Field(number, Int(n.value.0)), n.value.1))
        else
          var (length, rest) := n.value;
          Ok((Field(number, Bytes(Slice(rest, 0, length))), From(rest, length)))
  }

  /** What a field reads as once its key and its number or length have been read. */
  lemma ReadFieldIs(bs: seq<byte>, number: nat, wire: nat, after: seq<byte>, n: nat, rest: seq<byte>)
    requires wire < 8 && ReadVarint(bs) == Ok((number * 8 + wire, after))
    requires wire == 0 || wire == 2 ==> ReadVarint(after) == Ok((n, rest))
    ensures wire != 0 && wire != 2 ==> ReadField(bs) == Err("unsupported protobuf wire type")
    ensures wire == 0 ==> ReadField(bs) == Ok((Field(number, Int(n)), rest))
    ensures wire == 2 ==> ReadField(bs) == Ok((Field(number, Bytes(Slice(rest, 0, n))), From(rest, n)))
  {
    DivUnique(number * 8 + wire, 8, number, wire);
  }

  function ReadFields(bs: seq<byte>): Result<seq<Field>, string>
    decreases |bs|
  {
    if bs == [] then Ok([])
    else
      var first := ReadField(bs);
      if first.Err? then Err(first.error)
      else Prepended(first.value.0, ReadFields(first.value.1))
  }

  function Prepended(f: Field, r: Result<seq<Field>, string>): Result<seq<Field>, string> {
    if r.Err? then r else Ok([f] + r.value)
  }

  /** The values of field `n`, in order. */
  function Values(fs: seq<Field>, n: nat): seq<Value> {
    if fs == [] then []
    else (if fs[0].number == n then [fs[0].value] else []) + Values(fs[1..], n)
  }

  lemma {:induction false} ValuesConcat(fs: seq<Field>, gs: seq<Field>, n: nat)
    ensures Values(fs + gs, n) == Values(fs, n) + Values(gs, n)
  {
    if fs == [] {
      assert fs + gs == gs;
    } else {
      ValuesConcat(fs[1..], gs, n);
      assert (fs + gs)[1..] == fs[1..] + gs;
      var first := if fs[0].number == n then [fs[0].value] else [];
      assert first + (Values(fs[1..], n) + Values(gs, n)) == first + Values(fs[1..], n) + Values(gs, n);
    }
  }

  type Dict = map<nat, seq<Value>>

  /** `fields.setdefault(field, []).append(value)`. */
  function Added(d: Dict, f: Field): Dict {
    d[f.number := (if f.number in d then d[f.number] else []) + [f.value]]
  }

  function Dictionary(fs: seq<Field>): Dict {
    if fs == [] then map[] else Added(Dictionary(fs[..|fs| - 1]), fs[|fs| - 1])
  }

  /** The dictionary holds, under each field number that occurs, its values in order. */
  lemma {:induction false} DictionaryHolds(fs: seq<Field>, n: nat)
    ensures n in Dictionary(fs) <==> Values(fs, n) != []
    ensures n in Dictionary(fs) ==> Dictionary(fs)[n] == Values(fs, n)
  {
    if fs != [] {
      var init, last := fs[..|fs| - 1], fs[|fs| - 1];
      DictionaryHolds(init, n);
      ValuesConcat(init, [last], n);
      assert fs == init + [last] && [last][1..] == [];
      assert Values([last], n) == if last.number == n then [last.value] else [];
    }
  }

  function ReadDict(bs: seq<byte>): Result<Dict, string> {
    var fs :- ReadFields(bs);
    Ok(Dictionary(fs))
  }

  function Joined(fs: seq<Field>, r: Result<seq<Field>, string>): Result<seq<Field>, string> {
    if r.Err? then r else Ok(fs + r.value)
  }

  lemma JoinedNothing(r: Result<seq<Field>, string>)
    ensures Joined([], r) == r
  {
    if r.Ok? { assert [] + r.value == r.value; }
  }

  lemma JoinedOne(fs: seq<Field>, f: Field, r: Result<seq<Field>, string>)
    ensures Joined(fs, Prepended(f, r)) == Joined(fs + [f], r)
  {
    if r.Ok? { assert fs + ([f] + r.value) == fs + [f] + r.value; }
  }

  lemma SliceFrom(data: seq<byte>, at: nat, n: nat)
    requires at <= |data|
    ensures Slice(data, at, at + n) == Slice(data[at..], 0, n)
    ensures From(data, at + n) == From(data[at..], n)
  {
  }

  /** One turn of the loop of `_read_fields`. */
  method ReadFieldAt(data: seq<byte>, i: nat) returns (r: Result<(Field, nat), string>)
    requires i < |data|
    ensures r.Err? ==> ReadField(data[i..]) == Err(r.error)
    ensures r.Ok? ==> i < r.value.1 && ReadField(data[i..]) == Ok((r.value.0, From(data, r.value.1)))
  {
    var key := ReadVarintAt(data, i);
    if key.Err? {
      return Err(key.error);
    }
    var number, wire := key.value.0 / 8, key.value.0 % 8;
    DivMod(key.value.0, 8);
    if wire != 0 && wire != 2 {
      return Err("unsupported protobuf wire type");
    }
    var n := ReadVarintAt(data, key.value.1);
    if n.Err? {
      return Err(n.error);
    }
    var at := n.value.1;
    ReadFieldIs(data[i..], number, wire, data[key.value.1..], n.value.0, data[at..]);
    if wire == 0 {
      return Ok((Field(number, Int(n.value.0)), at));
    }
    SliceFrom(data, at, n.value.0);
    return Ok((Field(number, Bytes(Slice(data, at, at + n.value.0))), at + n.value.0));
  }

  /** `_read_fields`. */
  method ReadDictionary(data: seq<byte>) returns (r: Result<Dict, string>)
    ensures r == ReadDict(data)
  {
    var fields: Dict, i: nat := map[], 0;
    ghost var seen: seq<Field> := [];
    assert data[0..] == data;
    JoinedNothing(ReadFields(data));
    while i < |data|
      invariant fields == Dictionary(seen)
      invariant ReadFields(data) == Joined(seen, ReadFields(From(data, i)))
      decreases |data| - i
    {
      var f := ReadFieldAt(data, i);
      if f.Err? {
        return Err(f.error);
      }
      var (field, next) := f.value;
      JoinedOne(seen, field, ReadFields(From(data, next)));
      fields := fields[field.number := (if field.number in fields then fields[field.number] else []) + [field.value]];
      assert (seen + [field])[..|seen|] == seen;
      seen, i := seen + [field], next;
    }
    assert From(data, i) == [] && seen + [] == seen;
    return Ok(fields);
  }

  lemma FourParts(t: seq<byte>, v: seq<byte>, b: seq<byte>, rest: seq<byte>)
    ensures t + v + b + rest == t + (v + (b + rest))
  {
    Assoc(t + v, b, rest);
    Assoc(t, v, b + rest);
  }

  lemma SliceOfConcat(b: seq<byte>, rest: seq<byte>)
    ensures Slice(b + rest, 0, |b|) == b && From(b + rest, |b|) == rest
  {
  }

  lemma ReadOfInt(number: nat, n: nat, rest: seq<byte>)
    ensures ReadField(Tag(number, 0) + Varint(n) + rest) == Ok((Field(number, Int(n)), rest))
  {
    var after := Varint(n) + rest;
    Assoc(Tag(number, 0), Varint(n), rest);
    ReadOfVarint(number * 8, after);
    ReadOfVarint(n, rest);
    ReadFieldIs(Tag(number, 0) + after, number, 0, after, n, rest);
  }

  lemma ReadOfBytes(number: nat, b: seq<byte>, rest: seq<byte>)
    ensures ReadField(Delimited(number, b) + rest) == Ok((Field(number, Bytes(b)), rest))
  {
    var t, v := Tag(number, 2), Varint(|b|);
    var after := v + (b + rest);
    FourParts(t, v, b, rest);
    ReadOfVarint(number * 8 + 2, after);
    ReadOfVarint(|b|, b + rest);
    SliceOfConcat(b, rest);
    ReadFieldIs(t + after, number, 2, after, |b|, b + rest);
  }

  lemma ReadOfWire(f: Field, rest: seq<byte>)
    ensures ReadField(Wire(f) + rest) == Ok((f, rest))
  {
    if f.value.Int? {
      ReadOfInt(f.number, f.value.n, rest);
    } else {
      ReadOfBytes(f.number, f.value.b, rest);
    }
  }

  /** Reading inverts the concatenation of any fields, whatever their numbers and sizes. */
  lemma {:induction false} ReadOfWireAll(fs: seq<Field>)
    ensures ReadFields(WireAll(fs)) == Ok(fs)
  {
    if fs != [] {
      var rest := WireAll(fs[1..]);
      ReadOfWire(fs[0], rest);
      ReadOfWireAll(fs[1..]);
      ReadFieldsStep(Wire(fs[0]) + rest, fs, rest);
    }
  }

  lemma ReadFieldsStep(bs: seq<byte>, fs: seq<Field>, rest: seq<byte>)
    requires fs != [] && bs != [] && ReadField(bs) == Ok((fs[0], rest)) && ReadFields(rest) == Ok(fs[1..])
    ensures ReadFields(bs) == Ok(fs)
  {
    assert [fs[0]] + fs[1..] == fs;
  }
}
