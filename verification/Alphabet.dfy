/** The 32-character alphabet bech32 and cashaddr share, and strings over it. */
module Alphabet {
  import opened Common

  const CHARSET := "qpzry9x8gf2tvdw0s3jn54khce6mua7l"

  /** `s.index(c)`: the first position of `c`. */
  function Find(s: string, c: char): (r: Option<nat>)
    ensures r.Some? ==> r.value < |s| && s[r.value] == c && c !in s[..r.value]
    ensures r.None? <==> c !in s
  {
    if s == "" then None
    else if s[0] == c then Some(0)
    else
      var r := Find(s[1..], c);
      if r.None? then None else Some(r.value + 1)
  }

  /** Where each character sits; 32 for characters outside the alphabet. */
  ghost function Position(c: char): int {
    if c == 'q' then 0 else if c == 'p' then 1 else if c == 'z' then 2 else if c == 'r' then 3
    else if c == 'y' then 4 else if c == '9' then 5 else if c == 'x' then 6 else if c == '8' then 7
    else if c == 'g' then 8 else if c == 'f' then 9 else if c == '2' then 10 else if c == 't' then 11
    else if c == 'v' then 12 else if c == 'd' then 13 else if c == 'w' then 14 else if c == '0' then 15
    else if c == 's' then 16 else if c == '3' then 17 else if c == 'j' then 18 else if c == 'n' then 19
    else if c == '5' then 20 else if c == '4' then 21 else if c == 'k' then 22 else if c == 'h' then 23
    else if c == 'c' then 24 else if c == 'e' then 25 else if c == '6' then 26 else if c == 'm' then 27
    else if c == 'u' then 28 else if c == 'a' then 29 else if c == '7' then 30 else if c == 'l' then 31
    else 32
  }

  lemma PositionOf(i: nat)
    requires i < 32
    ensures |CHARSET| == 32 && Position(CHARSET[i]) == i
  {
  }

  /** What the codecs need of an alphabet: 32 distinct characters, none of them the separator. */
  ghost predicate Alphabetic(cs: string) {
    |cs| == 32 && forall i :: 0 <= i < 32 ==> Find(cs, cs[i]) == Some(i) && cs[i] != '1'
  }

  lemma CharsetAlphabetic()
    ensures Alphabetic(CHARSET)
  {
    forall i | 0 <= i < 32
      ensures Find(CHARSET, CHARSET[i]) == Some(i) && CHARSET[i] != '1'
    {
      PositionOf(i);
      var r := Find(CHARSET, CHARSET[i]);
      if r.Some? {
        PositionOf(r.value);
      }
    }
  }

  predicate Small(ds: seq<int>) { forall i :: 0 <= i < |ds| ==> 0 <= ds[i] < 32 }

  /** `[CHARSET.index(c) for c in s]`, or nothing if some character is not in the alphabet. */
  function Values(cs: string, s: string): (r: Option<seq<int>>)
    ensures r.Some? ==> |r.value| == |s|
  {
    if s == "" then Some([])
    else
      var d, rest := Find(cs, s[0]), Values(cs, s[1..]);
      if d.None? || rest.None? then None else Some([d.value] + rest.value)
  }

  function Chars(cs: string, ds: seq<int>): (s: string)
    requires Small(ds) && |cs| == 32
    ensures |s| == |ds|
  {
    seq(|ds|, i requires 0 <= i < |ds| => cs[ds[i]])
  }

  lemma {:induction false} ValuesOfChars(cs: string, ds: seq<int>)
    requires Small(ds) && Alphabetic(cs)
    ensures Values(cs, Chars(cs, ds)) == Some(ds) && '1' !in Chars(cs, ds)
  {
    if ds != [] {
      ValuesOfChars(cs, ds[1..]);
      var s := Chars(cs, ds);
      assert s[1..] == Chars(cs, ds[1..]);
      assert ds == [ds[0]] + ds[1..];
    }
  }

  lemma {:induction false} CharsOfValues(cs: string, s: string)
    requires |cs| == 32 && Values(cs, s).Some?
    ensures Small(Values(cs, s).value) && Chars(cs, Values(cs, s).value) == s
  {
    if s != "" {
      CharsOfValues(cs, s[1..]);
      var ds := Values(cs, s).value;
      assert ds[1..] == Values(cs, s[1..]).value;
      assert Chars(cs, ds)[1..] == Chars(cs, ds[1..]);
      assert s == [s[0]] + s[1..] && Chars(cs, ds) == [Chars(cs, ds)[0]] + Chars(cs, ds)[1..];
    }
  }

  lemma {:induction false} ValuesAppend(cs: string, s: string, c: char)
    ensures var init, d := Values(cs, s), Find(cs, c);
            Values(cs, s + [c]) == if init.None? || d.None? then None else Some(init.value + [d.value])
  {
    if s == "" {
      assert s + [c] == [c];
      assert [c][1..] == "";
      if Find(cs, c).Some? {
        var d := Find(cs, c).value;
        assert [d] + [] == [] + [d];
      }
    } else {
      ValuesAppend(cs, s[1..], c);
      assert (s + [c])[1..] == s[1..] + [c];
      assert (s + [c])[0] == s[0];
      var init, d := Values(cs, s[1..]), Find(cs, c);
      if init.Some? && d.Some? && Find(cs, s[0]).Some? {
        var x := [Find(cs, s[0]).value];
        assert x + (init.value + [d.value]) == (x + init.value) + [d.value];
      }
    }
  }

  lemma {:induction false} ValuesFail(cs: string, s: string, i: nat)
    requires i < |s| && Find(cs, s[i]).None?
    ensures Values(cs, s).None?
  {
    if i > 0 { ValuesFail(cs, s[1..], i - 1); }
  }

  /** The list comprehension as the loop it is. */
  method ReadValues(cs: string, s: string) returns (r: Option<seq<int>>)
    ensures r == Values(cs, s)
  {
    var ds: seq<int> := [];
    for i := 0 to |s|
      invariant Values(cs, s[..i]) == Some(ds)
    {
      var d := Find(cs, s[i]);
      if d.None? {
        ValuesFail(cs, s, i);
        return None;
      }
      ValuesAppend(cs, s[..i], s[i]);
      assert s[..i] + [s[i]] == s[..i + 1];
      ds := ds + [d.value];
    }
    assert s[..|s|] == s;
    return Some(ds);
  }

  /** `s.rfind(c)`: the last position of `c`, or -1. */
  function RFind(s: string, c: char): (r: int)
    ensures -1 <= r < |s| && (r >= 0 ==> s[r] == c)
    ensures c !in s[r + 1..]
    decreases |s|
  {
    if s == "" then -1
    else if s[|s| - 1] == c then |s| - 1
    else RFind(s[..|s| - 1], c)
  }

  lemma {:induction false} RFindSplit(a: string, c: char, b: string)
    requires c !in b
    ensures RFind(a + [c] + b, c) == |a|
    decreases |b|
  {
    var s := a + [c] + b;
    if b == "" {
      assert s == a + [c];
    } else {
      var init := b[..|b| - 1];
      assert s[..|s| - 1] == a + [c] + init;
      assert s[|s| - 1] == b[|b| - 1];
      RFindSplit(a, c, init);
    }
  }

  /** Strings that agree outside a window agree at each position outside it. */
  lemma SameChar(a: string, b: string, p: nat, i: nat, k: nat)
    requires |a| == |b| && i + k <= |a| && p < |a| && !(i <= p < i + k)
    requires a[..i] == b[..i] && a[i + k..] == b[i + k..]
    ensures a[p] == b[p]
  {
    if p < i {
      assert a[p] == a[..i][p] && b[p] == b[..i][p];
    } else {
      assert a[p] == a[i + k..][p - i - k] && b[p] == b[i + k..][p - i - k];
    }
  }

  /** Distinct values have distinct characters. */
  lemma SameValue(cs: string, vs: seq<int>, ws: seq<int>, j: nat)
    requires Alphabetic(cs) && Small(vs) && Small(ws) && j < |vs| && j < |ws|
    requires Chars(cs, vs)[j] == Chars(cs, ws)[j]
    ensures vs[j] == ws[j]
  {
    assert Find(cs, cs[vs[j]]) == Some(vs[j]);
    assert Find(cs, cs[ws[j]]) == Some(ws[j]);
  }

  /** Two texts, from offset `at` on, that agree outside a window: so do their values. */
  lemma SameOutside(cs: string, a: string, b: string, at: nat, vs: seq<int>, ws: seq<int>, i: nat, k: nat)
    requires Alphabetic(cs) && Small(vs) && Small(ws) && |a| == |b| && at <= |a| && i + k <= |a|
    requires a[at..] == Chars(cs, vs) && b[at..] == Chars(cs, ws)
    requires a[..i] == b[..i] && a[i + k..] == b[i + k..]
    ensures |vs| == |ws| == |a| - at
    ensures forall j :: 0 <= j < |vs| && !(i <= at + j < i + k) ==> vs[j] == ws[j]
  {
    forall j | 0 <= j < |vs| && !(i <= at + j < i + k) ensures vs[j] == ws[j] {
      SameChar(a, b, at + j, i, k);
      assert Chars(cs, vs)[j] == a[at..][j] == a[at + j] && Chars(cs, ws)[j] == b[at..][j] == b[at + j];
      SameValue(cs, vs, ws, j);
    }
  }
}
