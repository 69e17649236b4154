/** The cashaddr checksum (BCH addresses): the same register, 40 bits wide. */
module Cashaddr {
  import opened Bits
  import opened Alphabet
  import opened Bch

  datatype Checker = Checker(code: Code, charset: string, one: Word) {

    ghost predicate Good() {
      code.Valid() && code.Injective() && code.symbols == 8 && Alphabetic(charset) && code.Fits(one)
    }

    /** `ord(c) & 0x1F` for every character. */
    function PrefixWords(prefix: string): (r: seq<Word>)
      requires Good()
      ensures code.FitsAll(r)
    {
      if prefix == "" then [] else [BitsOf(prefix[0] as int % 32, 40)] + PrefixWords(prefix[1..])
    }

    /** The register after the prefix and its separator. */
    function Start(prefix: string): (r: Word)
      requires Good()
      ensures code.Fits(r)
    {
      code.Fold(one, PrefixWords(if prefix == "" then "bitcoincash" else prefix) + [Zeros(40)])
    }

    /** `_cashaddr_ok`. */
    predicate Accepts(address: string)
      requires Good()
    {
      var pos := RFind(address, ':');
      var values := Values(charset, address[pos + 1..]);
      values.Some? &&
      (CharsOfValues(charset, address[pos + 1..]);
       code.Fold(Start(PrefixOf(address)), Symbols(code, values.value)) == one)
    }

    /** The part before the last colon; empty when there is none. */
    function PrefixOf(address: string): string {
      var pos := RFind(address, ':');
      if pos < 0 then "" else address[..pos]
    }

    method Check(address: string) returns (ok: bool)
      requires Good()
      ensures ok == Accepts(address)
    {
      var pos := RFind(address, ':');
      var prefix := PrefixOf(address);
      var head := PrefixWords(if prefix == "" then "bitcoincash" else prefix) + [Zeros(40)];
      var values := ReadValues(charset, address[pos + 1..]);
      if values.None? {
        return false;
      }
      CharsOfValues(charset, address[pos + 1..]);
      FoldConcat(code, one, head, Symbols(code, values.value));
      var checksum := Polymod(code, one, head + Symbols(code, values.value));
      ok := checksum == one;
    }

    /** Leaving `bitcoincash:` off, or writing it out, makes no difference. */
    lemma DefaultPrefix(body: string)
      requires Good() && ':' !in body
      ensures Accepts("bitcoincash:" + body) == Accepts(body)
    {
      RFindSplit("bitcoincash", ':', body);
      var a := "bitcoincash" + [':'] + body;
      assert a == "bitcoincash:" + body;
      assert a[..11] == "bitcoincash" && a[12..] == body;
      RFindNone(body, ':');
      assert body[0..] == body;
    }

    lemma RFindNone(s: string, c: char)
      requires c !in s
      ensures RFind(s, c) == -1
    {
    }

    /** The body starts at `at`, right after the last colon if there is one. */
    predicate BodyFrom(s: string, at: nat) {
      at <= |s| && ':' !in s[at..] && (at == 0 || s[at - 1] == ':')
    }

    /**
     * Two accepted addresses with the same prefix, written or left off alike,
     * never differ only inside a window of eight consecutive symbols.
     */
    lemma WindowOfEight(a: string, b: string, at: nat, i: nat, k: nat)
      requires Good() && |a| == |b| && i + k <= |a| && k <= 8
      requires a[..i] == b[..i] && a[i + k..] == b[i + k..]
      requires BodyFrom(a, at) && BodyFrom(b, at) && a[..at] == b[..at]
      requires Accepts(a) && Accepts(b)
      ensures a == b
    {
      SamePrefix(a, b, at);
      var vs := SymbolsFrom(a, at);
      var ws := SymbolsFrom(b, at);
      SameOutside(charset, a, b, at, vs, ws, i, k);
      WindowDetected(code, Start(PrefixUpto(a, at)), vs, ws,
                     if i < at then 0 else i - at, if i + k < at then 0 else i + k - at);
      Halves(a, at);
      Halves(b, at);
    }

    function PrefixUpto(s: string, at: nat): string
      requires at <= |s|
    {
      if at == 0 then "" else s[..at - 1]
    }

    lemma SymbolsFrom(s: string, at: nat) returns (vs: seq<int>)
      requires Good() && BodyFrom(s, at) && Accepts(s)
      ensures Small(vs) && s[at..] == Chars(charset, vs)
      ensures code.Fold(Start(PrefixUpto(s, at)), Symbols(code, vs)) == one
    {
      BodyFound(s, at);
      vs := AcceptedSymbols(s, at);
    }

    /** The symbols of an accepted address, and where they bring the register. */
    lemma AcceptedSymbols(s: string, at: nat) returns (vs: seq<int>)
      requires Good() && at <= |s| && RFind(s, ':') == at - 1 && Accepts(s)
      ensures Small(vs) && s[at..] == Chars(charset, vs)
      ensures code.Fold(Start(PrefixUpto(s, at)), Symbols(code, vs)) == one
    {
      CharsOfValues(charset, s[at..]);
      vs := Values(charset, s[at..]).value;
    }

    lemma BodyFound(s: string, at: nat)
      requires BodyFrom(s, at)
      ensures RFind(s, ':') == at - 1
    {
      if at == 0 {
        assert s[0..] == s;
        RFindNone(s, ':');
      } else {
        RFindSplit(s[..at - 1], ':', s[at..]);
        assert s == s[..at - 1] + [':'] + s[at..];
      }
    }

    lemma SamePrefix(a: string, b: string, at: nat)
      requires at <= |a| && at <= |b| && a[..at] == b[..at]
      ensures at > 0 ==> a[..at - 1] == b[..at - 1]
    {
      if at > 0 { assert a[..at - 1] == a[..at][..at - 1] && b[..at - 1] == b[..at][..at - 1]; }
    }

    lemma Halves(s: string, at: nat)
      requires at <= |s|
      ensures s == s[..at] + s[at..]
    {
    }
  }

  function MakeChecker(generators: seq<nat>): Checker {
    Checker(Code(8, generators), CHARSET, BitsOf(1, 40))
  }

  const CASHADDR := MakeChecker([0x98F2BC8E61, 0x79B76D99E2, 0xF33E5FB3C4, 0xAE2EABE2A8, 0x1E4F43E470])

  lemma MakeCheckerGood(generators: seq<nat>)
    requires |generators| == 5
    requires generators[0] % 32 == 1 && generators[1] % 32 == 2 && generators[2] % 32 == 4
    requires generators[3] % 32 == 8 && generators[4] % 32 == 16
    ensures MakeChecker(generators).Good()
  {
    DiagonalInvertible(Code(8, generators));
    CharsetAlphabetic();
  }

  lemma CashaddrGood()
    ensures CASHADDR.Good()
  {
    MakeCheckerGood([0x98F2BC8E61, 0x79B76D99E2, 0xF33E5FB3C4, 0xAE2EABE2A8, 0x1E4F43E470]);
  }

  /** Each generator's low five bits hold exactly one bit, a different one each. */
  lemma DiagonalInvertible(code: Code)
    requires code.Valid()
    requires code.gen[0] % 32 == 1 && code.gen[1] % 32 == 2 && code.gen[2] % 32 == 4
    requires code.gen[3] % 32 == 8 && code.gen[4] % 32 == 16
    ensures code.Injective()
  {
    forall top: Word | code.Vanishes(top)
      ensures top == Zeros(5)
    {
      forall j: nat | j < 5 ensures !Parity(code, top, j) {
        ParityZero(code, top, j);
      }
      Diagonal(code, top);
    }
  }

  lemma Diagonal(code: Code, top: Word)
    requires code.Valid() && |top| == 5
    requires code.gen[0] % 32 == 1 && code.gen[1] % 32 == 2 && code.gen[2] % 32 == 4
    requires code.gen[3] % 32 == 8 && code.gen[4] % 32 == 16
    ensures Parity(code, top, 0) == top[4] && Parity(code, top, 1) == top[3]
    ensures Parity(code, top, 2) == top[2] && Parity(code, top, 3) == top[1] && Parity(code, top, 4) == top[0]
  {
    LowFive(code.gen[0]);
    LowFive(code.gen[1]);
    LowFive(code.gen[2]);
    LowFive(code.gen[3]);
    LowFive(code.gen[4]);
  }
}
