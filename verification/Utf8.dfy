/** UTF-8, as Python's `str.encode()` and `bytes.decode()`. */
module Utf8 {
  import opened Common

  function EncodeChar(c: char): (r: seq<byte>)
    ensures 1 <= |r| <= 4
  {
    var n := c as int;
    if n < 0x80 then [n]
    else if n < 0x800 then [0xC0 + n / 64, 0x80 + n % 64]
    else if n < 0x10000 then [0xE0 + n / 64 / 64, 0x80 + n / 64 % 64, 0x80 + n % 64]
    else [0xF0 + n / 64 / 64 / 64, 0x80 + n / 64 / 64 % 64, 0x80 + n / 64 % 64, 0x80 + n % 64]
  }

  function Encode(s: string): seq<byte> {
    if s == "" then [] else EncodeChar(s[0]) + Encode(s[1..])
  }

  predicate Cont(b: byte) { 0x80 <= b < 0xC0 }

  predicate Scalar(n: int) { 0 <= n < 0xD800 || 0xE000 <= n < 0x110000 }

  /** Six more bits from a continuation byte. */
  function More(high: int, b: byte): int { high * 64 + (b - 0x80) }

  /** The character the bytes start with; none if they start with no well-formed one. */
  function DecodeChar(bs: seq<byte>): (r: Option<char>)
    ensures r.Some? ==> |EncodeChar(r.value)| <= |bs|
  {
    if bs == [] then None
    else
      var lead: int := bs[0];
      if lead < 0x80 then Some(lead as char)
      else if |bs| >= 2 && 0xC2 <= lead < 0xE0 && Cont(bs[1]) then
        Some(More(lead - 0xC0, bs[1]) as char)
      else if |bs| >= 3 && 0xE0 <= lead < 0xF0 && Cont(bs[1]) && Cont(bs[2]) then
        var n := More(More(lead - 0xE0, bs[1]), bs[2]);
        if n < 0x800 || !Scalar(n) then None else Some(n as char)
      else if |bs| >= 4 && 0xF0 <= lead < 0xF8 && Cont(bs[1]) && Cont(bs[2]) && Cont(bs[3]) then
        var n := More(More(More(lead - 0xF0, bs[1]), bs[2]), bs[3]);
        if n < 0x10000 || !Scalar(n) then None else Some(n as char)
      else None
  }

  function Decode(bs: seq<byte>): (r: Option<string>)
    decreases |bs|
  {
    if bs == [] then Some("")
    else
      var c := DecodeChar(bs);
      if c.None? then None
      else
        var rest := Decode(bs[|EncodeChar(c.value)|..]);
        if rest.None? then None else Some([c.value] + rest.value)
  }

  lemma DecodeCharOf(c: char, rest: seq<byte>)
    ensures DecodeChar(EncodeChar(c) + rest) == Some(c)
  {
    var n := c as int;
    var a := n / 64;
    var b := a / 64;
    assert n == a * 64 + n % 64 && a == b * 64 + a % 64 && b == b / 64 * 64 + b % 64;
    var bs := EncodeChar(c);
    assert forall i :: 0 <= i < |bs| ==> (bs + rest)[i] == bs[i];
  }

  /** Decoding inverts encoding. */
  lemma {:induction false} DecodeOfEncode(s: string)
    ensures Decode(Encode(s)) == Some(s)
  {
    if s != "" {
      DecodeOfEncode(s[1..]);
      DecodeCharOf(s[0], Encode(s[1..]));
      assert Encode(s)[|EncodeChar(s[0])|..] == Encode(s[1..]);
      assert s == [s[0]] + s[1..];
    }
  }

  /** Undoing `More`: the six low bits, and what was above them. */
  lemma MoreApart(high: nat, b: byte)
    requires Cont(b)
    ensures More(high, b) / 64 == high && 0x80 + More(high, b) % 64 == b
  {
    DivUnique(More(high, b), 64, high, b - 0x80);
  }

  lemma Begins(bs: seq<byte>, k: nat)
    requires 1 <= k <= 4 && k <= |bs|
    ensures k == 1 ==> [bs[0]] <= bs
    ensures k == 2 ==> [bs[0], bs[1]] <= bs
    ensures k == 3 ==> [bs[0], bs[1], bs[2]] <= bs
    ensures k == 4 ==> [bs[0], bs[1], bs[2], bs[3]] <= bs
  {
  }

  /** A character read is encoded by the very bytes it was read from. */
  lemma EncodeCharOf(bs: seq<byte>)
    requires DecodeChar(bs).Some?
    ensures EncodeChar(DecodeChar(bs).value) <= bs
  {
    var lead: int := bs[0];
    if lead < 0x80 {
      Begins(bs, 1);
    } else if lead < 0xE0 {
      MoreApart(lead - 0xC0, bs[1]);
      Begins(bs, 2);
    } else if lead < 0xF0 {
      var high := More(lead - 0xE0, bs[1]);
      MoreApart(lead - 0xE0, bs[1]);
      MoreApart(high, bs[2]);
      Begins(bs, 3);
    } else {
      var high := More(lead - 0xF0, bs[1]);
      MoreApart(lead - 0xF0, bs[1]);
      MoreApart(high, bs[2]);
      MoreApart(More(high, bs[2]), bs[3]);
      Begins(bs, 4);
    }
  }

  /** Bytes that decode at all are the encoding of what they decode to. */
  lemma {:induction false} EncodeOfDecode(bs: seq<byte>)
    requires Decode(bs).Some?
    ensures Encode(Decode(bs).value) == bs
    decreases |bs|
  {
    if bs != [] {
      var c := DecodeChar(bs).value;
      EncodeCharOf(bs);
      var head := EncodeChar(c);
      var tail := bs[|head|..];
      EncodeOfDecode(tail);
      assert bs == head + tail;
      EncodeCons(c, Decode(tail).value);
    }
  }

  lemma EncodeCons(c: char, s: string)
    ensures Encode([c] + s) == EncodeChar(c) + Encode(s)
  {
    assert ([c] + s)[1..] == s;
  }

  lemma {:induction false} EncodeConcat(a: string, b: string)
    ensures Encode(a + b) == Encode(a) + Encode(b)
  {
    if a == "" {
      assert a + b == b;
    } else {
      EncodeConcat(a[1..], b);
      EncodeCons(a[0], a[1..] + b);
      assert a + b == [a[0]] + (a[1..] + b);
      Assoc(EncodeChar(a[0]), Encode(a[1..]), Encode(b));
    }
  }

  /** ASCII is itself; beyond it, two, three and four bytes, the high bits first. */
  lemma EncodingMeans(c: char)
    ensures var n := c as int;
            EncodeChar(c)
            == if n < 0x80 then [n]
               else if n < 0x800 then [0xC0 + n / 0x40, 0x80 + n % 0x40]
               else if n < 0x10000 then [0xE0 + n / 0x1000, 0x80 + n / 0x40 % 0x40, 0x80 + n % 0x40]
               else [0xF0 + n / 0x40000, 0x80 + n / 0x1000 % 0x40, 0x80 + n / 0x40 % 0x40, 0x80 + n % 0x40]
  {
    var n := c as int;
    var a := n / 0x40;
    var b := a / 0x40;
    assert b == n / 0x1000 && b / 0x40 == n / 0x40000;
  }
}
