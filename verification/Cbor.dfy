/** CBOR (RFC 8949): the encoding of the items a transaction is written with, and reading them back. */
module Cbor {
  import opened Common
  import Utf8

  /** A map is its keys and values in turn. */
  datatype Item =
    | Int(n: int) | Raw(bytes: seq<byte>) | Text(text: string)
    | List(items: seq<Item>) | Map(entries: seq<Item>)
    | Tag(tag: nat, item: Item) | Bool(b: bool) | Null

  const TWO_64: int := 0x1_0000_0000_0000_0000

  // --- big-endian numbers ---------------------------------------------------

  function BigEndian(n: nat, k: nat): (r: seq<byte>)
    ensures |r| == k
  {
    if k == 0 then [] else BigEndian(n / 256, k - 1) + [n % 256]
  }

  function FromBigEndian(bs: seq<byte>): nat {
    if bs == [] then 0 else FromBigEndian(bs[..|bs| - 1]) * 256 + bs[|bs| - 1]
  }

  lemma {:induction false} FromBigEndianOf(n: nat, k: nat)
    requires n < Pow256(k)
    ensures FromBigEndian(BigEndian(n, k)) == n
  {
    if k > 0 {
      FromBigEndianOf(n / 256, k - 1);
      assert BigEndian(n, k)[..k - 1] == BigEndian(n / 256, k - 1);
    }
  }

  /** Bytes in the shortest big-endian form of `n`. */
  function ByteLength(n: nat): nat { if n == 0 then 0 else 1 + ByteLength(n / 256) }

  lemma {:induction false} PowerBelow(n: nat)
    requires n > 0
    ensures Pow256(ByteLength(n) - 1) <= n < Pow256(ByteLength(n))
  {
    if n >= 256 {
      PowerBelow(n / 256);
    } else {
      assert n / 256 == 0 && ByteLength(n) == 1 && Pow256(0) == 1;
    }
  }

  lemma PowersOf256()
    ensures Pow256(1) == 0x100 && Pow256(2) == 0x1_0000 && Pow256(4) == 0x1_0000_0000 && Pow256(8) == TWO_64
  {
    assert Pow256(4) == 256 * Pow256(3) == 0x1_0000 * Pow256(2) == 0x1_0000_0000;
    assert Pow256(8) == 256 * Pow256(7) == 0x1_0000 * Pow256(6) == 0x1_0000_0000 * Pow256(4)
      by { assert Pow256(6) == 256 * Pow256(5); }
  }

  // --- heads (section 3 of RFC 8949) ----------------------------------------

  /** The first byte: the major type in its high three bits, and five more. */
  function First(major: nat, low: nat): (r: byte)
    requires major < 8 && low < 32
  {
    32 * major + low
  }

  function Major(first: byte): (r: nat)
    ensures r < 8
  {
    first / 32
  }

  function Low(first: byte): (r: nat)
    ensures r < 32
  {
    first % 32
  }

  lemma MajorOfFirst(major: nat, low: nat)
    requires major < 8 && low < 32
    ensures Major(First(major, low)) == major && Low(First(major, low)) == low
  {
  }

  /** The argument is the low bits themselves below 24, and otherwise follows in 1, 2, 4 or 8 bytes. */
  function Head(major: nat, n: nat): seq<byte>
    requires major < 8
  {
    if n < 24 then [First(major, n)]
    else if n < 0x100 then [First(major, 24)] + BigEndian(n, 1)
    else if n < 0x1_0000 then [First(major, 25)] + BigEndian(n, 2)
    else if n < 0x1_0000_0000 then [First(major, 26)] + BigEndian(n, 4)
    else [First(major, 27)] + BigEndian(n, 8)
  }

  /** Argument bytes after a first byte with these low bits; none for those that are not modelled. */
  function ArgumentSize(low: nat): Option<nat> {
    if low < 24 then Some(0)
    else if low == 24 then Some(1)
    else if low == 25 then Some(2)
    else if low == 26 then Some(4)
    else if low == 27 then Some(8)
    else None
  }

  datatype Header = Header(major: nat, arg: nat, rest: seq<byte>)

  function ReadHead(bs: seq<byte>): (r: Result<Header, string>)
    ensures r.Ok? ==> |r.value.rest| < |bs|
  {
    if bs == [] then Err("premature end")
    else
      var low, k := Low(bs[0]), ArgumentSize(Low(bs[0]));
      if k.None? then Err("unsupported length")
      else if |bs| < 1 + k.value then Err("premature end")
      else
        var arg := if k.value == 0 then low else FromBigEndian(bs[1..1 + k.value]);
        Ok(Header(Major(bs[0]), arg, bs[1 + k.value..]))
  }

  lemma ReadHeadOf(major: nat, n: nat, rest: seq<byte>)
    requires major < 8 && n < TWO_64
    ensures ReadHead(Head(major, n) + rest) == Ok(Header(major, n, rest))
  {
    PowersOf256();
    if n < 24 {
      ShortHead(major, n, rest);
    } else if n < 0x100 {
      LongHead(major, 24, 1, n, rest);
    } else if n < 0x1_0000 {
      LongHead(major, 25, 2, n, rest);
    } else if n < 0x1_0000_0000 {
      LongHead(major, 26, 4, n, rest);
    } else {
      LongHead(major, 27, 8, n, rest);
    }
  }

  lemma ShortHead(major: nat, n: nat, rest: seq<byte>)
    requires major < 8 && n < 24
    ensures ReadHead([First(major, n)] + rest) == Ok(Header(major, n, rest))
  {
    MajorOfFirst(major, n);
    assert ([First(major, n)] + rest)[1..] == rest;
  }

  lemma LongHead(major: nat, low: nat, k: nat, n: nat, rest: seq<byte>)
    requires major < 8 && 24 <= low < 32 && ArgumentSize(low) == Some(k) && n < Pow256(k)
    ensures ReadHead([First(major, low)] + BigEndian(n, k) + rest) == Ok(Header(major, n, rest))
  {
    var bs := [First(major, low)] + BigEndian(n, k) + rest;
    MajorOfFirst(major, low);
    FromBigEndianOf(n, k);
    assert bs[1..1 + k] == BigEndian(n, k) && bs[1 + k..] == rest;
  }

  // --- items ----------------------------------------------------------------

  function EncodeRaw(b: seq<byte>): seq<byte> { Head(2, |b|) + b }

  /** A bignum: its tag, and its bytes. */
  function EncodeBignum(t: nat, bs: seq<byte>): seq<byte> { Head(6, t) + EncodeRaw(bs) }

  /** The shortest bytes that read as `m`. */
  function ShortestBytes(m: nat): (bs: seq<byte>)
    ensures |bs| == ByteLength(m) && FromBigEndian(bs) == m
  {
    if m > 0 then PowerBelow(m); FromBigEndianOf(m, ByteLength(m)); BigEndian(m, ByteLength(m)) else []
  }

  /** Distance from zero, counting -1 as 0. */
  function Magnitude(n: int): nat { if n >= 0 then n else -1 - n }

  /** An integer: its head up to 2^64, a tagged byte string (a bignum) beyond, and likewise below zero. */
  function EncodeInt(n: int): seq<byte> {
    var m := Magnitude(n);
    if m < TWO_64 then Head(if n >= 0 then 0 else 1, m)
    else EncodeBignum(if n >= 0 then 2 else 3, ShortestBytes(m))
  }

  function Encode(x: Item): seq<byte>
    decreases x, 0
  {
    match x
    case Int(n) => EncodeInt(n)
    case Raw(b) => EncodeRaw(b)
    case Text(t) => Head(3, |Utf8.Encode(t)|) + Utf8.Encode(t)
    case List(xs) => Head(4, |xs|) + EncodeAll(xs)
    case Map(xs) => Head(5, |xs| / 2) + EncodeAll(xs)
    case Tag(t, y) => Head(6, t) + Encode(y)
    case Bool(b) => [if b then 0xF5 else 0xF4]
    case Null => [0xF6]
  }

  function EncodeAll(xs: seq<Item>): seq<byte>
    decreases xs, 1
  {
    if xs == [] then [] else Encode(xs[0]) + EncodeAll(xs[1..])
  }

  /** What a tag makes of its item: a bignum is an integer. */
  function Tagged(t: nat, y: Item): Item {
    if t == 2 && y.Raw? then Int(FromBigEndian(y.bytes))
    else if t == 3 && y.Raw? then Int(-1 - FromBigEndian(y.bytes))
    else Tag(t, y)
  }

  function Simple(first: byte): Option<Item> {
    if first == 0xF4 then Some(Bool(false))
    else if first == 0xF5 then Some(Bool(true))
    else if first == 0xF6 then Some(Null)
    else None
  }

  function DecodeText(n: nat, bs: seq<byte>): Result<Item, string>
    requires n <= |bs|
  {
    var text := Utf8.Decode(bs[..n]);
    if text.None? then Err("not UTF-8") else Ok(Text(text.value))
  }

  datatype Decoded<T> = Decoded(item: T, rest: seq<byte>)

  function Decode(bs: seq<byte>): (r: Result<Decoded<Item>, string>)
    ensures r.Ok? ==> |r.value.rest| < |bs|
    decreases |bs|, 0
  {
    var head :- ReadHead(bs);
    var n, rest := head.arg, head.rest;
    if head.major == 0 then Ok(Decoded(Int(n), rest))
    else if head.major == 1 then Ok(Decoded(Int(-1 - n), rest))
    else if head.major == 4 then
      var xs :- DecodeAll(n, rest);
      Ok(Decoded(List(xs.item), xs.rest))
    else if head.major == 5 then
      var xs :- DecodeAll(2 * n, rest);
      Ok(Decoded(Map(xs.item), xs.rest))
    else if head.major == 6 then
      var y :- Decode(rest);
      Ok(Decoded(Tagged(n, y.item), y.rest))
    else if head.major == 7 then
      var x := Simple(bs[0]);
      if x.None? then Err("unsupported simple value") else Ok(Decoded(x.value, rest))
    else if |rest| < n then Err("premature end")
    else if head.major == 2 then Ok(Decoded(Raw(rest[..n]), rest[n..]))
    else
      var text :- DecodeText(n, rest);
      Ok(Decoded(text, rest[n..]))
  }

  /** The next `k` items. */
  function DecodeAll(k: nat, bs: seq<byte>): (r: Result<Decoded<seq<Item>>, string>)
    ensures r.Ok? ==> |r.value.rest| <= |bs|
    decreases |bs|, 1
  {
    if k == 0 then Ok(Decoded([], bs))
    else
      var first :- Decode(bs);
      var more :- DecodeAll(k - 1, first.rest);
      Ok(Decoded([first.item] + more.item, more.rest))
  }

  // --- reading back ---------------------------------------------------------

  /** Within what heads can say: lengths and tags below 2^64, a value for every key, and no other reading of a tag. */
  predicate Encodable(x: Item)
    decreases x, 0
  {
    match x
    case Int(n) => ByteLength(Magnitude(n)) < TWO_64
    case Raw(b) => |b| < TWO_64
    case Text(t) => |Utf8.Encode(t)| < TWO_64
    case List(xs) => |xs| < TWO_64 && AllEncodable(xs)
    case Map(xs) => |xs| % 2 == 0 && |xs| / 2 < TWO_64 && AllEncodable(xs)
    case Tag(t, y) => t < TWO_64 && t != 2 && t != 3 && Encodable(y)
    case Bool(_) => true
    case Null => true
  }

  predicate AllEncodable(xs: seq<Item>)
    decreases xs, 1
  {
    xs == [] || (Encodable(xs[0]) && AllEncodable(xs[1..]))
  }

  lemma HeadThen(major: nat, n: nat, body: seq<byte>, rest: seq<byte>)
    requires major < 8 && n < TWO_64
    ensures ReadHead(Head(major, n) + body + rest) == Ok(Header(major, n, body + rest))
    ensures (body + rest)[..|body|] == body && (body + rest)[|body|..] == rest
  {
    ReadHeadOf(major, n, body + rest);
    Assoc(Head(major, n), body, rest);
  }

  lemma DecodeOfRaw(b: seq<byte>, rest: seq<byte>)
    requires |b| < TWO_64
    ensures Decode(EncodeRaw(b) + rest) == Ok(Decoded(Raw(b), rest))
  {
    HeadThen(2, |b|, b, rest);
  }

  lemma DecodeOfText(t: string, rest: seq<byte>)
    requires |Utf8.Encode(t)| < TWO_64
    ensures Decode(Encode(Text(t)) + rest) == Ok(Decoded(Text(t), rest))
  {
    var body := Utf8.Encode(t);
    Utf8.DecodeOfEncode(t);
    DecodeOfTextBytes(t, body, rest);
  }

  lemma DecodeOfTextBytes(t: string, body: seq<byte>, rest: seq<byte>)
    requires |body| < TWO_64 && Utf8.Decode(body) == Some(t)
    ensures Decode(Head(3, |body|) + body + rest) == Ok(Decoded(Text(t), rest))
  {
    HeadThen(3, |body|, body, rest);
  }

  lemma DecodeOfTagged(t: nat, body: seq<byte>, y: Item, rest: seq<byte>)
    requires t < TWO_64 && Decode(body + rest) == Ok(Decoded(y, rest))
    ensures Decode(Head(6, t) + body + rest) == Ok(Decoded(Tagged(t, y), rest))
  {
    HeadThen(6, t, body, rest);
  }

  lemma DecodeOfBignum(t: nat, bs: seq<byte>, y: Item, rest: seq<byte>)
    requires t < TWO_64 && |bs| < TWO_64 && y == Raw(bs)
    ensures Decode(EncodeBignum(t, bs) + rest) == Ok(Decoded(Tagged(t, y), rest))
  {
    DecodeOfRaw(bs, rest);
    DecodeOfTagged(t, EncodeRaw(bs), y, rest);
  }

  lemma DecodeOfSmall(n: int, m: nat, rest: seq<byte>)
    requires m == Magnitude(n) && m < TWO_64
    ensures Decode(EncodeInt(n) + rest) == Ok(Decoded(Int(n), rest))
  {
    ReadHeadOf(if n >= 0 then 0 else 1, m, rest);
  }

  lemma DecodeOfBig(n: int, t: nat, bs: seq<byte>, rest: seq<byte>)
    requires |bs| < TWO_64 && t == (if n >= 0 then 2 else 3) && FromBigEndian(bs) == Magnitude(n)
    ensures Decode(EncodeBignum(t, bs) + rest) == Ok(Decoded(Int(n), rest))
  {
    TaggedBig(n, t, bs);
    DecodeOfBignum(t, bs, Raw(bs), rest);
  }

  lemma TaggedBig(n: int, t: nat, bs: seq<byte>)
    requires t == (if n >= 0 then 2 else 3) && FromBigEndian(bs) == Magnitude(n)
    ensures Tagged(t, Raw(bs)) == Int(n)
  {
  }

  lemma DecodeOfInt(n: int, rest: seq<byte>)
    requires ByteLength(Magnitude(n)) < TWO_64
    ensures Decode(EncodeInt(n) + rest) == Ok(Decoded(Int(n), rest))
  {
    if Magnitude(n) < TWO_64 {
      DecodeOfSmall(n, Magnitude(n), rest);
    } else {
      DecodeOfBig(n, if n >= 0 then 2 else 3, ShortestBytes(Magnitude(n)), rest);
    }
  }

  lemma DecodeOfList(xs: seq<Item>, body: seq<byte>, rest: seq<byte>)
    requires |xs| < TWO_64 && DecodeAll(|xs|, body + rest) == Ok(Decoded(xs, rest))
    ensures Decode(Head(4, |xs|) + body + rest) == Ok(Decoded(List(xs), rest))
  {
    HeadThen(4, |xs|, body, rest);
  }

  lemma DecodeOfMap(xs: seq<Item>, pairs: nat, body: seq<byte>, rest: seq<byte>)
    requires |xs| == 2 * pairs && pairs < TWO_64 && DecodeAll(|xs|, body + rest) == Ok(Decoded(xs, rest))
    ensures Decode(Head(5, pairs) + body + rest) == Ok(Decoded(Map(xs), rest))
  {
    HeadThen(5, pairs, body, rest);
  }

  lemma DecodeOfSimple(first: byte, rest: seq<byte>)
    requires Simple(first).Some?
    ensures Decode([first] + rest) == Ok(Decoded(Simple(first).value, rest))
  {
    assert ([first] + rest)[1..] == rest;
    assert Major(first) == 7 && Low(first) < 24;
  }

  /** Reading inverts writing, whatever follows. */
  lemma {:induction false} DecodeOfEncode(x: Item, rest: seq<byte>)
    requires Encodable(x)
    ensures Decode(Encode(x) + rest) == Ok(Decoded(x, rest))
    decreases x, 0
  {
    match x
    case Int(n) => DecodeOfInt(n, rest);
    case Raw(b) => DecodeOfRaw(b, rest);
    case Text(t) => DecodeOfText(t, rest);
    case List(xs) =>
      DecodeOfEncodeAll(xs, rest);
      DecodeOfList(xs, EncodeAll(xs), rest);
    case Map(xs) =>
      DecodeOfEncodeAll(xs, rest);
      DecodeOfMap(xs, |xs| / 2, EncodeAll(xs), rest);
    case Tag(t, y) =>
      DecodeOfEncode(y, rest);
      DecodeOfTagged(t, Encode(y), y, rest);
    case Bool(b) => DecodeOfSimple(if b then 0xF5 else 0xF4, rest);
    case Null => DecodeOfSimple(0xF6, rest);
  }

  lemma {:induction false} DecodeOfEncodeAll(xs: seq<Item>, rest: seq<byte>)
    requires AllEncodable(xs)
    ensures DecodeAll(|xs|, EncodeAll(xs) + rest) == Ok(Decoded(xs, rest))
    decreases xs, 1
  {
    if xs == [] {
      assert [] + rest == rest;
    } else {
      Assoc(Encode(xs[0]), EncodeAll(xs[1..]), rest);
      DecodeOfEncode(xs[0], EncodeAll(xs[1..]) + rest);
      DecodeOfEncodeAll(xs[1..], rest);
      assert xs == [xs[0]] + xs[1..];
    }
  }

  // --- what is short enough can be written ----------------------------------

  /** A value for every key, and tags with no other reading. */
  predicate WellFormed(x: Item)
    decreases x, 0
  {
    match x
    case List(xs) => AllWellFormed(xs)
    case Map(xs) => |xs| % 2 == 0 && AllWellFormed(xs)
    case Tag(t, y) => t < TWO_64 && t != 2 && t != 3 && WellFormed(y)
    case _ => true
  }

  predicate AllWellFormed(xs: seq<Item>)
    decreases xs, 1
  {
    xs == [] || (WellFormed(xs[0]) && AllWellFormed(xs[1..]))
  }

  lemma HeadTakes(major: nat, n: nat)
    requires major < 8
    ensures |Head(major, n)| >= 1
  {
  }

  lemma {:induction false} ShortIsEncodable(x: Item)
    requires WellFormed(x) && |Encode(x)| < TWO_64
    ensures Encodable(x) && |Encode(x)| >= 1
    decreases x, 0
  {
    match x
    case List(xs) =>
      HeadTakes(4, |xs|);
      AllShortIsEncodable(xs);
    case Map(xs) =>
      HeadTakes(5, |xs| / 2);
      AllShortIsEncodable(xs);
    case Tag(t, y) =>
      HeadTakes(6, t);
      ShortIsEncodable(y);
    case Int(n) => SmallIsShort(Magnitude(n));
    case _ =>
  }

  lemma {:induction false} AllShortIsEncodable(xs: seq<Item>)
    requires AllWellFormed(xs) && |EncodeAll(xs)| < TWO_64
    ensures AllEncodable(xs) && |EncodeAll(xs)| >= |xs|
    decreases xs, 1
  {
    if xs != [] {
      ShortIsEncodable(xs[0]);
      AllShortIsEncodable(xs[1..]);
    }
  }

  lemma {:induction false} LengthAtMost(n: nat, k: nat)
    requires n < Pow256(k)
    ensures ByteLength(n) <= k
  {
    if n > 0 && k > 0 { LengthAtMost(n / 256, k - 1); }
  }

  lemma SmallIsShort(m: nat)
    ensures m < TWO_64 ==> ByteLength(m) <= 8
  {
    PowersOf256();
    if m < TWO_64 { LengthAtMost(m, 8); }
  }
}
