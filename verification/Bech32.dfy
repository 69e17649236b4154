/** bech32 and bech32m addresses (BIP-173, BIP-350). */
module Bech32 {
  import opened Common
  import opened Bits
  import opened Alphabet
  import opened Bch
  import opened Regroup

  datatype Parts = Parts(hrp: string, values: seq<int>, variant: Word)

  /**
   * The codec over a checksum code and an alphabet. `BECH` below is the one
   * the wallet uses; stating it over any good pair keeps the constants out of
   * the proofs.
   */
  datatype Codec = Codec(code: Code, charset: string, one: Word, variants: seq<Word>) {

    ghost predicate Good() {
      && code.Valid() && code.Injective() && code.symbols == 6
      && Alphabetic(charset) && code.Fits(one) && code.FitsAll(variants)
    }

    /** `_hrp_expand`: the high bits, a separator, the low bits of every character. */
    function HrpExpand(hrp: string): (r: seq<Word>)
      requires Good()
      ensures code.FitsAll(r)
    {
      CharWords(hrp, true) + [Zeros(30)] + CharWords(hrp, false)
    }

    /** `ord(c) >> 5`, or `ord(c) & 31`, for every character. */
    function CharWords(s: string, high: bool): (r: seq<Word>)
      requires Good()
      ensures code.FitsAll(r)
    {
      if s == "" then []
      else [BitsOf(if high then s[0] as int / 32 else s[0] as int % 32, 30)] + CharWords(s[1..], high)
    }

    /** `_polymod(_hrp_expand(hrp) + values)`. */
    function Residue(hrp: string, values: seq<int>): (r: Word)
      requires Good() && Small(values)
      ensures code.Fits(r)
    {
      code.Fold(code.Fold(one, HrpExpand(hrp)), Symbols(code, values))
    }

    method PolymodOf(hrp: string, values: seq<int>) returns (r: Word)
      requires Good() && Small(values)
      ensures r == Residue(hrp, values)
    {
      FoldConcat(code, one, HrpExpand(hrp), Symbols(code, values));
      r := Polymod(code, one, HrpExpand(hrp) + Symbols(code, values));
    }

    function Text(values: seq<int>): (s: string)
      requires Good() && Small(values)
      ensures |s| == |values|
    {
      Chars(charset, values)
    }

    /** `split`: the parts of a string whose checksum matches some variant. */
    function Split(address: string): (r: Result<Parts, string>)
      requires Good()
      ensures r.Ok? ==> Small(r.value.values) && |r.value.values| >= 6 && r.value.variant in variants
    {
      var pos := RFind(address, '1');
      if pos < 1 || pos + 7 > |address| then Err("not a bech32 address")
      else
        var values := Values(charset, address[pos + 1..]);
        if values.None? then Err("invalid bech32 character")
        else
          CharsOfValues(charset, address[pos + 1..]);
          var variant := Residue(address[..pos], values.value);
          if variant !in variants then Err("bad bech32 checksum")
          else Ok(Parts(address[..pos], values.value, variant))
    }

    method SplitAddress(address: string) returns (r: Result<Parts, string>)
      requires Good()
      ensures r == Split(address)
    {
      var pos := RFind(address, '1');
      if pos < 1 || pos + 7 > |address| {
        return Err("not a bech32 address");
      }
      var values := ReadValues(charset, address[pos + 1..]);
      if values.None? {
        return Err("invalid bech32 character");
      }
      CharsOfValues(charset, address[pos + 1..]);
      var variant := PolymodOf(address[..pos], values.value);
      if variant !in variants {
        return Err("bad bech32 checksum");
      }
      return Ok(Parts(address[..pos], values.value, variant));
    }

    /** The string for a human-readable part, data values and the checksum they call for. */
    function Assemble(hrp: string, values: seq<int>, variant: Word): string
      requires Good() && Small(values) && code.Fits(variant)
    {
      hrp + "1" + Text(values + Checksum(code, Residue(hrp, values), variant))
    }

    function Encode(hrp: string, data: seq<byte>, variant: Word): string
      requires Good() && code.Fits(variant)
    {
      ByteDigits(data);
      Assemble(hrp, Fives(data), variant)
    }

    method EncodeAddress(hrp: string, data: seq<byte>, variant: Word) returns (s: string)
      requires Good() && code.Fits(variant)
      ensures s == Encode(hrp, data, variant)
    {
      ByteDigits(data);
      var values := ConvertBits(data, 8, 5, true);
      EightFiveEight(data);
      var checksum := ChecksumOf(hrp, values.value, variant);
      s := hrp + "1" + Text(values.value + checksum);
    }

    method ChecksumOf(hrp: string, values: seq<int>, variant: Word) returns (cs: seq<int>)
      requires Good() && code.Fits(variant) && Small(values)
      ensures cs == Checksum(code, Residue(hrp, values), variant)
    {
      var zeros := seq(6, _ => 0);
      ResidueConcat(hrp, values, zeros);
      var polymod := PolymodOf(hrp, values + zeros);
      cs := Chunk(Xor(polymod, variant), 5);
    }

    function Decode(address: string, variant: Word): (r: Result<(string, seq<int>), string>)
      requires Good()
    {
      var parts := Split(address);
      if parts.Err? then Err(parts.error)
      else
        var Parts(hrp, values, got) := parts.value;
        if got != variant then Err("bad checksum")
        else
          var data := Convert(values[..|values| - 6], 5, 8, false);
          if data.Err? then Err(data.error) else Ok((hrp, data.value))
    }

    method DecodeAddress(address: string, variant: Word) returns (r: Result<(string, seq<int>), string>)
      requires Good()
      ensures r == Decode(address, variant)
    {
      var parts := SplitAddress(address);
      if parts.Err? {
        return Err(parts.error);
      }
      var Parts(hrp, values, got) := parts.value;
      if got != variant {
        return Err("bad checksum");
      }
      var data := ConvertBits(values[..|values| - 6], 5, 8, false);
      if data.Err? {
        return Err(data.error);
      }
      return Ok((hrp, data.value));
    }

    // --- round trips ------------------------------------------------------

    lemma SplitOf(hrp: string, values: seq<int>)
      requires Good() && Small(values) && |values| >= 6
      ensures Split(hrp + "1" + Text(values))
              == if hrp == "" then Err("not a bech32 address")
                 else if Residue(hrp, values) in variants then Ok(Parts(hrp, values, Residue(hrp, values)))
                 else Err("bad bech32 checksum")
    {
      var tail := Text(values);
      ValuesOfChars(charset, values);
      RFindSplit(hrp, '1', tail);
      Pieces(hrp, '1', tail);
    }

    /** What `Split` accepts is its parts put back together. */
    lemma SplitParts(a: string)
      requires Good() && Split(a).Ok?
      ensures var Parts(hrp, values, variant) := Split(a).value;
              hrp != "" && a == hrp + "1" + Text(values) && Residue(hrp, values) == variant
    {
      var pos := RFind(a, '1');
      CharsOfValues(charset, a[pos + 1..]);
      Rejoin(a, pos);
    }

    lemma ResidueConcat(hrp: string, ds: seq<int>, es: seq<int>)
      requires Good() && Small(ds) && Small(es)
      ensures Residue(hrp, ds + es) == code.Fold(Residue(hrp, ds), Symbols(code, es))
    {
      FoldSymbols(code, code.Fold(one, HrpExpand(hrp)), ds, es);
    }

    /** The checksum `Assemble` appends is one that `Split` accepts. */
    lemma SplitOfAssembled(hrp: string, values: seq<int>, variant: Word)
      requires Good() && Small(values) && variant in variants
      ensures var cs := Checksum(code, Residue(hrp, values), variant);
              |cs| == 6 && Split(Assemble(hrp, values, variant))
              == if hrp == "" then Err("not a bech32 address") else Ok(Parts(hrp, values + cs, variant))
    {
      var cs := Checksum(code, Residue(hrp, values), variant);
      ChecksumReachesTarget(code, Residue(hrp, values), variant);
      ResidueConcat(hrp, values, cs);
      SplitOf(hrp, values + cs);
    }

    /** decode inverts encode, for every byte string and every non-empty human-readable part. */
    lemma DecodeEncode(hrp: string, data: seq<byte>, variant: Word)
      requires Good() && variant in variants
      ensures Decode(Encode(hrp, data, variant), variant)
              == if hrp == "" then Err("not a bech32 address") else Ok((hrp, data))
    {
      ByteDigits(data);
      var values := Fives(data);
      SplitOfAssembled(hrp, values, variant);
      var cs := Checksum(code, Residue(hrp, values), variant);
      assert (values + cs)[..|values + cs| - 6] == values;
      EightFiveEight(data);
    }

    /** An accepted string is the assembly of everything before its last six symbols. */
    lemma AssembledFromParts(a: string)
      requires Good() && Split(a).Ok?
      ensures var Parts(hrp, values, variant) := Split(a).value;
              Assemble(hrp, values[..|values| - 6], variant) == a
    {
      var Parts(hrp, values, variant) := Split(a).value;
      SplitParts(a);
      var ds, es := values[..|values| - 6], values[|values| - 6..];
      assert values == ds + es;
      ChecksumIsLast(hrp, ds, es, variant);
    }

    /** The six symbols that bring the residue to a variant are the checksum for it. */
    lemma ChecksumIsLast(hrp: string, ds: seq<int>, es: seq<int>, variant: Word)
      requires Good() && Small(ds) && Small(es) && |es| == 6 && code.Fits(variant) && Residue(hrp, ds + es) == variant
      ensures Checksum(code, Residue(hrp, ds), variant) == es
    {
      ResidueConcat(hrp, ds, es);
      var c := Residue(hrp, ds);
      ChecksumReachesTarget(code, c, variant);
      WindowUnique(code, c, Checksum(code, c, variant), es, []);
    }

    /** encode inverts decode on every accepted string: padding and checksum are canonical. */
    lemma EncodeDecode(a: string, variant: Word)
      requires Good() && Decode(a, variant).Ok?
      ensures var (hrp, data) := Decode(a, variant).value;
              hrp != "" && code.Fits(variant) && IsBytes(data) && Encode(hrp, data, variant) == a
    {
      SplitParts(a);
      AssembledFromParts(a);
      var Parts(hrp, values, _) := Split(a).value;
      var data := Decode(a, variant).value.1;
      FiveEightFive(values[..|values| - 6], data);
      DigitBytes(data);
    }

    // --- error detection --------------------------------------------------

    /**
     * Two strings accepted under one variant with the same human-readable part
     * never differ only inside a window of six consecutive symbols.
     */
    lemma WindowOfSix(a: string, b: string, i: nat, k: nat)
      requires Good() && Split(a).Ok? && Split(b).Ok?
      requires Split(a).value.hrp == Split(b).value.hrp && Split(a).value.variant == Split(b).value.variant
      requires |a| == |b| && i + k <= |a| && k <= 6
      requires a[..i] == b[..i] && a[i + k..] == b[i + k..]
      ensures a == b
    {
      SplitParts(a);
      SplitParts(b);
      var Parts(hrp, vs, _) := Split(a).value;
      var ws := Split(b).value.values;
      var at := |hrp| + 1;
      Pieces(hrp, '1', Text(vs));
      Pieces(hrp, '1', Text(ws));
      SameOutside(charset, a, b, at, vs, ws, i, k);
      SameSymbols(hrp, vs, ws, if i < at then 0 else i - at, if i + k < at then 0 else i + k - at);
    }

    lemma SameSymbols(hrp: string, vs: seq<int>, ws: seq<int>, lo: nat, hi: nat)
      requires Good() && Small(vs) && Small(ws) && |vs| == |ws| && lo <= hi <= |vs| && hi - lo <= 6
      requires forall j :: 0 <= j < |vs| && !(lo <= j < hi) ==> vs[j] == ws[j]
      requires Residue(hrp, vs) == Residue(hrp, ws)
      ensures vs == ws
    {
      WindowDetected(code, code.Fold(one, HrpExpand(hrp)), vs, ws, lo, hi);
    }

    // --- segwit addresses -------------------------------------------------

    /** v0 addresses carry the first variant, later versions the second. */
    function VersionVariant(version: int): (r: Word)
      requires Good() && |variants| == 2
      ensures code.Fits(r)
    {
      if version == 0 then variants[0] else variants[1]
    }

    /** `segwit_ok`. */
    predicate SegwitOk(address: string, hrp: string)
      requires Good() && |variants| == 2
    {
      var parts := Split(address);
      parts.Ok? &&
      var Parts(got, values, variant) := parts.value;
      got == hrp && |values| >= 7 && values[0] <= 16 && variant == VersionVariant(values[0]) &&
      var program := Convert(values[1..|values| - 6], 5, 8, false);
      program.Ok? && ProgramLength(values[0], program.value)
    }

    predicate ProgramLength(version: int, program: seq<int>) {
      2 <= |program| <= 40 && (version != 0 || |program| in {20, 32})
    }

    /** The segwit address of a witness version and program, as BIP-173 and BIP-350 define it. */
    function SegwitAddress(hrp: string, version: int, program: seq<byte>): string
      requires Good() && |variants| == 2 && 0 <= version <= 16
    {
      ByteDigits(program);
      Assemble(hrp, [version] + Fives(program), VersionVariant(version))
    }

    /** `segwit_ok` accepts every segwit address of that human-readable part... */
    lemma SegwitAccepts(hrp: string, version: int, program: seq<byte>)
      requires Good() && |variants| == 2 && variants[0] != variants[1]
      requires hrp != "" && 0 <= version <= 16 && ProgramLength(version, program)
      ensures SegwitOk(SegwitAddress(hrp, version, program), hrp)
    {
      ByteDigits(program);
      var five := Fives(program);
      SplitOfAssembled(hrp, [version] + five, VersionVariant(version));
      var cs := Checksum(code, Residue(hrp, [version] + five), VersionVariant(version));
      var values := [version] + five + cs;
      assert values[1..|values| - 6] == five;
      EightFiveEight(program);
    }

    /** ...and nothing else. */
    lemma SegwitAcceptsOnly(a: string, hrp: string) returns (version: int, program: seq<byte>)
      requires Good() && |variants| == 2 && SegwitOk(a, hrp)
      ensures hrp != "" && 0 <= version <= 16 && ProgramLength(version, program)
      ensures a == SegwitAddress(hrp, version, program)
    {
      var values := Split(a).value.values;
      SplitParts(a);
      AssembledFromParts(a);
      version := values[0];
      program := Regrouped(values[1..|values| - 6]);
      FrontOf(values, |values| - 6);
    }
  }

  /** Five-bit groups that regroup to bytes are those the bytes regroup to. */
  lemma Regrouped(mid: seq<int>) returns (program: seq<byte>)
    requires Convert(mid, 5, 8, false).Ok?
    ensures program == Convert(mid, 5, 8, false).value && Digits(program, 8) && Fives(program) == mid
  {
    var data := Convert(mid, 5, 8, false).value;
    FiveEightFive(mid, data);
    DigitBytes(data);
    program := data;
  }

  lemma FrontOf(values: seq<int>, n: nat)
    requires 1 <= n <= |values|
    ensures values[..n] == [values[0]] + values[1..n]
  {
  }

  lemma Pieces(a: string, c: char, b: string)
    ensures (a + [c] + b)[..|a|] == a && (a + [c] + b)[|a| + 1..] == b
  {
  }

  lemma Rejoin(s: string, i: nat)
    requires i < |s|
    ensures s == s[..i] + [s[i]] + s[i + 1..]
  {
  }

  predicate IsBytes(data: seq<int>) { forall i :: 0 <= i < |data| ==> 0 <= data[i] < 256 }

  lemma ByteDigits(data: seq<byte>)
    ensures Digits(data, 8) && IsBytes(data)
  {
    assert Pow2(8) == 256;
  }

  lemma DigitBytes(data: seq<int>)
    requires Digits(data, 8)
    ensures IsBytes(data)
  {
    assert Pow2(8) == 256;
  }

  /** Bytes regrouped to five bits. */
  function Fives(data: seq<int>): (r: seq<int>)
    requires Digits(data, 8)
    ensures Small(r)
  {
    assert Pow2(5) == 32;
    Convert(data, 8, 5, true).value
  }

  // --- the wallet's codec -------------------------------------------------

  function MakeCodec(generators: seq<nat>, variants: seq<nat>): Codec {
    Codec(Code(6, generators), CHARSET, BitsOf(1, 30),
          seq(|variants|, i requires 0 <= i < |variants| => BitsOf(variants[i], 30)))
  }

  const BECH := MakeCodec([0x3B6A57B2, 0x26508E6D, 0x1EA119FA, 0x3D4233DD, 0x2A1462B3], [1, 0x2BC830A3])

  lemma MakeCodecGood(generators: seq<nat>, variants: seq<nat>)
    requires |generators| == 5
    requires generators[0] % 32 == 0x12 && generators[1] % 32 == 0x0D && generators[2] % 32 == 0x1A
    requires generators[3] % 32 == 0x1D && generators[4] % 32 == 0x13
    ensures MakeCodec(generators, variants).Good()
  {
    RowsInvertible(Code(6, generators));
    CharsetAlphabetic();
  }

  lemma BechGood()
    ensures BECH.Good()
  {
    MakeCodecGood([0x3B6A57B2, 0x26508E6D, 0x1EA119FA, 0x3D4233DD, 0x2A1462B3], [1, 0x2BC830A3]);
  }

  /** The two variants differ, so a string of one is never accepted as the other. */
  lemma VariantsDiffer()
    ensures |BECH.variants| == 2 && BECH.variants[0] != BECH.variants[1]
  {
    BitAt(1, 30, 1);
    BitAt(0x2BC830A3, 30, 1);
  }

  /** Decoding under bech32 (0) or bech32m (1). */
  function DecodeAs(a: string, i: nat): Result<(string, seq<int>), string>
    requires i < 2
  {
    BechGood();
    VariantsDiffer();
    BECH.Decode(a, BECH.variants[i])
  }

  lemma OtherVariantRejected(a: string, i: nat)
    requires i < 2 && DecodeAs(a, i).Ok?
    ensures DecodeAs(a, 1 - i).Err?
  {
    VariantsDiffer();
  }

  /** The generators' low five bits form an invertible matrix. */
  lemma RowsInvertible(code: Code)
    requires code.Valid()
    requires code.gen[0] % 32 == 0x12 && code.gen[1] % 32 == 0x0D && code.gen[2] % 32 == 0x1A
    requires code.gen[3] % 32 == 0x1D && code.gen[4] % 32 == 0x13
    ensures code.Injective()
  {
    forall top: Word | code.Vanishes(top)
      ensures top == Zeros(5)
    {
      forall j: nat | j < 5 ensures !Parity(code, top, j) {
        ParityZero(code, top, j);
      }
      Rows(code, top);
    }
  }

  lemma Rows(code: Code, top: Word)
    requires code.Valid() && |top| == 5
    requires code.gen[0] % 32 == 0x12 && code.gen[1] % 32 == 0x0D && code.gen[2] % 32 == 0x1A
    requires code.gen[3] % 32 == 0x1D && code.gen[4] % 32 == 0x13
    ensures Parity(code, top, 0) == ((top[3] != top[1]) != top[0])
    ensures Parity(code, top, 1) == ((top[4] != top[2]) != top[0])
    ensures Parity(code, top, 2) == (top[3] != top[1])
    ensures Parity(code, top, 3) == ((top[3] != top[2]) != top[1])
    ensures Parity(code, top, 4) == ((top[4] != top[2]) != (top[1] != top[0]))
  {
    LowFive(code.gen[0]);
    LowFive(code.gen[1]);
    LowFive(code.gen[2]);
    LowFive(code.gen[3]);
    LowFive(code.gen[4]);
  }
}
