/** Where everything stands in a Zcash transaction, in what is hashed to sign it, and in the script that spends. */
module ZcashFields {
  import opened Common
  import opened LittleEndian
  import opened ZcashSighash
  import opened ZcashTx

  // --- numbers, byte by byte ------------------------------------------------

  /** The 32-bit number whose lowest byte is at `i`. */
  function U32(b: seq<byte>, i: nat): nat
    requires i + 4 <= |b|
  {
    var b0: int, b1: int, b2: int, b3: int := b[i], b[i + 1], b[i + 2], b[i + 3];
    b0 + 0x100 * b1 + 0x1_0000 * b2 + 0x100_0000 * b3
  }

  function U64(b: seq<byte>, i: nat): nat
    requires i + 8 <= |b|
  {
    U32(b, i) + 0x1_0000_0000 * U32(b, i + 4)
  }

  lemma U32OfLe(n: nat)
    requires Fits(n, 4)
    ensures U32(Le(n, 4), 0) == n
  {
    var a, b, c := n / 256, n / 256 / 256, n / 256 / 256 / 256;
    LeFour(n);
    FitsBounds(n);
    assert n == 256 * a + n % 256 && a == 256 * b + a % 256 && b == 256 * c + b % 256 && c < 256;
  }

  lemma LeEight(n: nat)
    ensures Le(n, 8) == Le(n, 4) + Le(n / 0x1_0000_0000, 4)
  {
    var a := n / 256;
    var b := a / 256;
    var c := b / 256;
    assert Le(b, 6) == [b % 256] + Le(c, 5) && Le(c, 5) == [c % 256] + Le(c / 256, 4);
    assert Le(n, 8) == [n % 256] + Le(a, 7) && Le(a, 7) == [a % 256] + Le(b, 6);
    LeFour(n);
    assert c / 256 == n / 0x1_0000_0000;
  }

  lemma U64OfLe(n: nat)
    requires Fits(n, 8)
    ensures U64(Le(n, 8), 0) == n
  {
    var high, low := n / 0x1_0000_0000, n % 0x1_0000_0000;
    FitsBounds(n);
    FitsBounds(high);
    FitsBounds(low);
    LeEight(n);
    U32OfLe(high);
    U32OfLe(low);
    LeFour(n);
    LeFour(low);
    SameLowBytes(n, low, high);
  }

  lemma SameLowBytes(n: nat, low: nat, high: nat)
    requires n == low + 0x1_0000_0000 * high
    ensures n % 256 == low % 256 && n / 256 % 256 == low / 256 % 256
    ensures n / 256 / 256 % 256 == low / 256 / 256 % 256
    ensures n / 256 / 256 / 256 % 256 == low / 256 / 256 / 256 % 256
  {
    assert n / 256 == low / 256 + 0x100_0000 * high;
    assert n / 256 / 256 == low / 256 / 256 + 0x1_0000 * high;
    assert n / 256 / 256 / 256 == low / 256 / 256 / 256 + 0x100 * high;
  }

  /** The characters of a text, a byte each. */
  predicate Spells(bs: seq<byte>, text: string) {
    |bs| == |text| && forall k :: 0 <= k < |bs| ==> bs[k] as int == text[k] as int
  }

  /** The three personalizations of the parts and that of the whole, which ends in the branch id. */
  lemma PersonsMean(branchId: int)
    requires Fits(branchId, 4)
    ensures Spells(PREVOUT_PERSON, "ZcashPrevoutHash")
    ensures Spells(SEQUENCE_PERSON, "ZcashSequencHash")
    ensures Spells(OUTPUTS_PERSON, "ZcashOutputsHash")
    ensures |Person(branchId)| == 16 && Spells(Person(branchId)[..12], "ZcashSigHash")
    ensures U32(Person(branchId), 12) == branchId
  {
    assert Person(branchId)[..12] == SIGHASH_PERSON && Person(branchId)[12..] == Le(branchId, 4);
    U32OfLe(branchId);
    U32At(Person(branchId), 12, branchId);
  }

  lemma U32At(b: seq<byte>, i: nat, n: nat)
    requires Fits(n, 4) && i + 4 <= |b| && b[i..i + 4] == Le(n, 4)
    ensures U32(b, i) == n
  {
    U32OfLe(n);
    var four := b[i..i + 4];
    assert four[0] == b[i] && four[1] == b[i + 1] && four[2] == b[i + 2] && four[3] == b[i + 3];
  }

  lemma U64At(b: seq<byte>, i: nat, n: nat)
    requires Fits(n, 8) && i + 8 <= |b| && b[i..i + 8] == Le(n, 8)
    ensures U64(b, i) == n
  {
    U64OfLe(n);
    var eight := b[i..i + 8];
    assert forall k :: 0 <= k < 8 ==> eight[k] == b[i + k];
  }

  // --- what is hashed on the way --------------------------------------------

  /** Outpoint `k` takes the 36 bytes from 36 * k on. */
  predicate OutpointAt(b: seq<byte>, at: nat, i: TxIn) {
    at + 36 <= |b| && b[at..at + 32] == i.prevTxid && U32(b, at + 32) == i.vout
  }

  lemma FirstOutpoint(i: TxIn, rest: seq<byte>)
    requires Fits(i.vout, 4) && |i.prevTxid| == 32
    ensures OutpointAt(Prevout(i) + rest, 0, i)
  {
    var b := Prevout(i) + rest;
    assert b[0..32] == i.prevTxid && b[32..36] == Le(i.vout, 4);
    U32At(b, 32, i.vout);
  }

  lemma LaterOutpoint(first: seq<byte>, rest: seq<byte>, at: nat, i: TxIn)
    requires OutpointAt(rest, at, i)
    ensures OutpointAt(first + rest, |first| + at, i)
  {
    var b, n := first + rest, |first|;
    assert b[n + at..n + at + 32] == rest[at..at + 32];
  }

  lemma {:induction false} PrevoutsMean(ins: seq<TxIn>, k: nat, at: nat)
    requires forall j :: 0 <= j < |ins| ==> Fits(ins[j].vout, 4) && |ins[j].prevTxid| == 32
    requires k < |ins| && at == 36 * k
    ensures OutpointAt(All(Prevout, ins), at, ins[k])
  {
    var first, rest := Prevout(ins[0]), All(Prevout, ins[1..]);
    if k == 0 {
      FirstOutpoint(ins[0], rest);
    } else {
      PrevoutsMean(ins[1..], k - 1, at - 36);
      LaterOutpoint(first, rest, at - 36, ins[k]);
    }
  }

  lemma {:induction false} PrevoutsLength(ins: seq<TxIn>, n: nat)
    requires forall j :: 0 <= j < |ins| ==> Fits(ins[j].vout, 4) && |ins[j].prevTxid| == 32
    requires n == |ins|
    ensures |All(Prevout, ins)| == 36 * n
  {
    if ins != [] { PrevoutsLength(ins[1..], n - 1); }
  }

  lemma LaterU32(first: seq<byte>, rest: seq<byte>, at: nat, n: nat)
    requires at + 4 <= |rest| && U32(rest, at) == n
    ensures U32(first + rest, |first| + at) == n
  {
  }

  lemma {:induction false} SequencesMean(ins: seq<TxIn>, k: nat, at: nat)
    requires forall j :: 0 <= j < |ins| ==> Fits(ins[j].sequence, 4)
    requires k < |ins| && at == 4 * k
    ensures at + 4 <= |All(Sequence, ins)| && U32(All(Sequence, ins), at) == ins[k].sequence
  {
    var first, rest := Sequence(ins[0]), All(Sequence, ins[1..]);
    if k == 0 {
      assert (first + rest)[0..4] == Le(ins[0].sequence, 4);
      U32At(first + rest, 0, ins[0].sequence);
    } else {
      SequencesMean(ins[1..], k - 1, at - 4);
      LaterU32(first, rest, at - 4, ins[k].sequence);
    }
  }

  lemma {:induction false} SequencesLength(ins: seq<TxIn>, n: nat)
    requires (forall j :: 0 <= j < |ins| ==> Fits(ins[j].sequence, 4)) && n == |ins|
    ensures |All(Sequence, ins)| == 4 * n
  {
    if ins != [] { SequencesLength(ins[1..], n - 1); }
  }

  /** A count: one byte below 253, and above a 253 and two bytes, the lower first. */
  function Count(n: nat): seq<byte> {
    if n < 253 then [n] else if n <= 0xFFFF then [253, n % 256, n / 256] else []
  }

  lemma CountMeans(n: nat)
    requires n <= MAX_VARINT
    ensures Varint(n) == Count(n)
  {
    assert Le(n / 256, 1) == [n / 256 % 256] + Le(n / 256 / 256, 0);
    assert Le(n, 2) == [n % 256] + Le(n / 256, 1);
  }

  /** An output: its value, its script behind a count. */
  predicate OutputAt(b: seq<byte>, at: nat, o: TxOut) {
    var count := Count(|o.script|);
    && at + 8 + |count| + |o.script| <= |b|
    && U64(b, at) == o.value && b[at + 8..at + 8 + |count|] == count
    && b[at + 8 + |count|..at + 8 + |count| + |o.script|] == o.script
  }

  function OutputLength(o: TxOut): nat { 8 + |Count(|o.script|)| + |o.script| }

  /** Where output `k` starts. */
  function Offset(outs: seq<TxOut>, k: nat): nat
    requires k <= |outs|
  {
    if k == 0 then 0 else OutputLength(outs[0]) + Offset(outs[1..], k - 1)
  }

  lemma OneOutput(o: TxOut, rest: seq<byte>)
    requires InRangeOut(o)
    ensures OutputAt(OutBytes(o) + rest, 0, o) && |OutBytes(o)| == OutputLength(o)
  {
    var b := OutBytes(o) + rest;
    var c := |Varint(|o.script|)|;
    CountMeans(|o.script|);
    assert b[0..8] == Le(o.value, 8);
    assert b[8..8 + c] == Varint(|o.script|) && b[8 + c..8 + c + |o.script|] == o.script;
    U64At(b, 0, o.value);
  }

  lemma Shifted(first: seq<byte>, rest: seq<byte>, at: nat, o: TxOut)
    requires OutputAt(rest, at, o)
    ensures OutputAt(first + rest, |first| + at, o)
  {
    var b, n, c := first + rest, |first|, |Count(|o.script|)|;
    assert b[n + at + 8..n + at + 8 + c] == rest[at + 8..at + 8 + c];
    assert b[n + at + 8 + c..n + at + 8 + c + |o.script|] == rest[at + 8 + c..at + 8 + c + |o.script|];
  }

  lemma OffsetNext(outs: seq<TxOut>, k: nat)
    requires 0 < k < |outs|
    ensures Offset(outs, k) == OutputLength(outs[0]) + Offset(outs[1..], k - 1)
  {
  }

  lemma {:induction false} OutputsMean(outs: seq<TxOut>, k: nat, at: nat)
    requires (forall j :: 0 <= j < |outs| ==> InRangeOut(outs[j])) && k < |outs| && at == Offset(outs, k)
    ensures OutputAt(All(OutBytes, outs), at, outs[k])
  {
    var first, rest := OutBytes(outs[0]), All(OutBytes, outs[1..]);
    OneOutput(outs[0], rest);
    if k > 0 {
      var next := Offset(outs[1..], k - 1);
      OffsetNext(outs, k);
      OutputsMean(outs[1..], k - 1, next);
      Joined(All(OutBytes, outs), first, rest, at, next, outs[k]);
    }
  }

  lemma Joined(whole: seq<byte>, first: seq<byte>, rest: seq<byte>, at: nat, next: nat, o: TxOut)
    requires whole == first + rest && at == |first| + next && OutputAt(rest, next, o)
    ensures OutputAt(whole, at, o)
  {
    Shifted(first, rest, next, o);
  }

  lemma {:induction false} OutputsLength(outs: seq<TxOut>)
    requires forall j :: 0 <= j < |outs| ==> InRangeOut(outs[j])
    ensures |All(OutBytes, outs)| == Offset(outs, |outs|)
  {
    if outs != [] {
      OneOutput(outs[0], []);
      OutputsLength(outs[1..]);
    }
  }

  /** All the outpoints, all the sequence numbers, all the outputs, in order, and nothing else. */
  ghost predicate Lists(tx: TxV4, prevouts: seq<byte>, sequences: seq<byte>, outputs: seq<byte>) {
    && |prevouts| == 36 * |tx.inputs| && |sequences| == 4 * |tx.inputs|
    && |outputs| == Offset(tx.outputs, |tx.outputs|)
    && (forall k :: 0 <= k < |tx.inputs| ==> OutpointAt(prevouts, 36 * k, tx.inputs[k]))
    && (forall k :: 0 <= k < |tx.inputs| ==> U32(sequences, 4 * k) == tx.inputs[k].sequence)
    && (forall k :: 0 <= k < |tx.outputs| ==> OutputAt(outputs, Offset(tx.outputs, k), tx.outputs[k]))
  }

  lemma ListsMean(tx: TxV4)
    requires Hashable(tx) && FullTxids(tx)
    ensures Lists(tx, All(Prevout, tx.inputs), All(Sequence, tx.inputs), All(OutBytes, tx.outputs))
  {
    PrevoutsLength(tx.inputs, |tx.inputs|);
    SequencesLength(tx.inputs, |tx.inputs|);
    OutputsLength(tx.outputs);
    forall k | 0 <= k < |tx.inputs|
      ensures OutpointAt(All(Prevout, tx.inputs), 36 * k, tx.inputs[k])
      ensures U32(All(Sequence, tx.inputs), 4 * k) == tx.inputs[k].sequence
    {
      PrevoutsMean(tx.inputs, k, 36 * k);
      SequencesMean(tx.inputs, k, 4 * k);
    }
    forall k | 0 <= k < |tx.outputs|
      ensures OutputAt(All(OutBytes, tx.outputs), Offset(tx.outputs, k), tx.outputs[k])
    {
      OutputsMean(tx.outputs, k, Offset(tx.outputs, k));
    }
  }

  // --- the digest -----------------------------------------------------------

  /** Seven pieces, the first six of known lengths. */
  lemma Pieces(m: seq<byte>, a: seq<byte>, b: seq<byte>, c: seq<byte>, d: seq<byte>, e: seq<byte>, f: seq<byte>,
               g: seq<byte>)
    requires m == a + b + c + d + e + f + g
    requires |a| == 8 && |b| == |c| == 96 && |d| == |e| == 4 && |f| == 12
    ensures |m| == 220 + |g|
    ensures m[..8] == a && m[8..104] == b && m[104..200] == c && m[200..204] == d && m[204..208] == e
    ensures m[208..220] == f && m[220..] == g
  {
  }

  lemma SliceOfSlice(m: seq<byte>, i: nat, j: nat, a: nat, b: nat)
    requires i <= j <= |m| && a <= b <= j - i
    ensures m[i..j][a..b] == m[i + a..i + b]
  {
    var x, y := m[i..j][a..b], m[i + a..i + b];
    forall k | 0 <= k < |x| ensures x[k] == y[k] {
      assert x[k] == m[i..j][a + k] == m[i + (a + k)];
    }
    assert x == y;
  }

  lemma ThreeHashes(m: seq<byte>, b: seq<byte>, p: seq<byte>, q: seq<byte>, r: seq<byte>)
    requires b == p + q + r && |p| == |q| == |r| == 32 && |m| >= 104 && m[8..104] == b
    ensures m[8..40] == p && m[40..72] == q && m[72..104] == r
  {
    assert b[..32] == p && b[32..64] == q && b[64..] == r;
    SliceOfSlice(m, 8, 104, 0, 32);
    SliceOfSlice(m, 8, 104, 32, 64);
    SliceOfSlice(m, 8, 104, 64, 96);
  }

  lemma {:induction false} ZerosMean(k: nat)
    ensures forall j :: 0 <= j < k ==> Le(0, k)[j] == 0
  {
    if k > 0 { ZerosMean(k - 1); }
  }

  /** What ZIP-243 puts before the input being signed, each field at its place. */
  ghost predicate PrefixFields(m: seq<byte>, h: Hash, tx: TxV4, prevouts: seq<byte>, sequences: seq<byte>,
                               outputs: seq<byte>)
  {
    && |m| >= 220
    && m[..8] == [0x04, 0x00, 0x00, 0x80, 0x85, 0x20, 0x2F, 0x89]
    && (exists p :: Spells(p, "ZcashPrevoutHash") && m[8..40] == h(p, prevouts))
    && (exists p :: Spells(p, "ZcashSequencHash") && m[40..72] == h(p, sequences))
    && (exists p :: Spells(p, "ZcashOutputsHash") && m[72..104] == h(p, outputs))
    && (forall k :: 104 <= k < 200 ==> m[k] == 0)
    && U32(m, 200) == tx.lockTime && U32(m, 204) == tx.expiryHeight
    && m[208..220] == [0, 0, 0, 0, 0, 0, 0, 0, 1, 0, 0, 0]
  }

  /** The input being signed and what it spends. */
  predicate InputFields(g: seq<byte>, i: TxIn, s: Spent) {
    var c := |Count(|s.script|)|;
    && |g| == 48 + c + |s.script|
    && OutpointAt(g, 0, i)
    && g[36..36 + c] == Count(|s.script|) && g[36 + c..36 + c + |s.script|] == s.script
    && U64(g, 36 + c + |s.script|) == s.value && U32(g, 44 + c + |s.script|) == i.sequence
  }

  lemma HeadMeans()
    ensures Head() == [0x04, 0x00, 0x00, 0x80, 0x85, 0x20, 0x2F, 0x89]
  {
    LeFour(V4_HEADER);
    LeFour(V4_VERSION_GROUP);
  }

  lemma InputPieces(g: seq<byte>, txid: seq<byte>, vout: seq<byte>, count: seq<byte>, script: seq<byte>,
                    value: seq<byte>, sequence: seq<byte>)
    requires g == txid + vout + (count + script) + value + sequence
    requires |txid| == 32 && |vout| == |sequence| == 4 && |value| == 8
    ensures var c, n := |count|, |script|;
            && |g| == 48 + c + n && g[0..32] == txid && g[32..36] == vout && g[36..36 + c] == count
            && g[36 + c..36 + c + n] == script && g[36 + c + n..44 + c + n] == value && g[44 + c + n..] == sequence
  {
  }

  lemma InputPartMeans(i: TxIn, s: Spent)
    requires Fits(i.vout, 4) && Fits(i.sequence, 4) && |s.script| <= MAX_VARINT && Fits(s.value, 8)
    requires |i.prevTxid| == 32
    ensures InputFields(InputPart(i, s), i, s)
  {
    var g, c, n := InputPart(i, s), |Varint(|s.script|)|, |s.script|;
    InputPieces(g, i.prevTxid, Le(i.vout, 4), Varint(n), s.script, Le(s.value, 8), Le(i.sequence, 4));
    CountMeans(n);
    U32At(g, 32, i.vout);
    U64At(g, 36 + c + n, s.value);
    U32At(g, 44 + c + n, i.sequence);
  }

  lemma ZerosAt(m: seq<byte>)
    requires |m| >= 220 && m[104..200] == Le(0, 96)
    ensures forall k :: 104 <= k < 200 ==> m[k] == 0
  {
    ZerosMean(96);
    assert forall k :: 104 <= k < 200 ==> m[k] == m[104..200][k - 104];
  }

  lemma ValueAndType()
    ensures Le(0, 8) + Le(SIGHASH_ALL, 4) == [0, 0, 0, 0, 0, 0, 0, 0, 1, 0, 0, 0]
  {
    LeFour(SIGHASH_ALL);
    LeFour(0);
    LeEight(0);
  }

  /** The fields, from where the pieces stand. */
  lemma FieldsOfPieces(m: seq<byte>, h: Hash, tx: TxV4, b: seq<byte>, prevouts: seq<byte>, sequences: seq<byte>,
                       outputs: seq<byte>)
    requires Is256(h) && Fits(tx.lockTime, 4) && Fits(tx.expiryHeight, 4) && |m| >= 220
    requires b == h(PREVOUT_PERSON, prevouts) + h(SEQUENCE_PERSON, sequences) + h(OUTPUTS_PERSON, outputs)
    requires m[..8] == Head() && m[8..104] == b && m[104..200] == Le(0, 96)
    requires m[200..204] == Le(tx.lockTime, 4) && m[204..208] == Le(tx.expiryHeight, 4)
    requires m[208..220] == Le(0, 8) + Le(SIGHASH_ALL, 4)
    ensures PrefixFields(m, h, tx, prevouts, sequences, outputs)
  {
    ThreeHashes(m, b, h(PREVOUT_PERSON, prevouts), h(SEQUENCE_PERSON, sequences), h(OUTPUTS_PERSON, outputs));
    HeadMeans();
    PersonsMean(0);
    ZerosAt(m);
    ValueAndType();
    U32At(m, 200, tx.lockTime);
    U32At(m, 204, tx.expiryHeight);
  }

  lemma PrefixMeans(h: Hash, tx: TxV4, index: nat, s: Spent)
    requires Is256(h) && Hashable(tx) && index < |tx.inputs| && |s.script| <= MAX_VARINT && Fits(s.value, 8)
    ensures var m := Preimage(h, tx, index, s);
            && PrefixFields(m, h, tx, All(Prevout, tx.inputs), All(Sequence, tx.inputs), All(OutBytes, tx.outputs))
            && m[220..] == InputPart(tx.inputs[index], s)
  {
    var m := Preimage(h, tx, index, s);
    Pieces(m, Head(), Hashes(h, tx), NoShielded(), Le(tx.lockTime, 4), Le(tx.expiryHeight, 4),
           Le(0, 8) + Le(SIGHASH_ALL, 4), InputPart(tx.inputs[index], s));
    FieldsOfPieces(m, h, tx, Hashes(h, tx), All(Prevout, tx.inputs), All(Sequence, tx.inputs),
                   All(OutBytes, tx.outputs));
  }

  /**
   * The digest is that of ZIP-243: under "ZcashSigHash" and the branch id, of the
   * header, the hashes of all outpoints, sequence numbers and outputs under their
   * own personalizations, no shielded parts, the lock time, the expiry, no
   * shielded value, SIGHASH_ALL, and the input with what it spends, each in its
   * place.
   */
  lemma DigestIsZip243(h: Hash, tx: TxV4, index: nat, s: Spent, branchId: int)
    requires Is256(h) && Hashable(tx) && FullTxids(tx) && index < |tx.inputs| && HashableSpent(s, branchId)
    ensures exists person, m, prevouts, sequences, outputs ::
              && Sighash(h, tx, index, s, branchId) == h(person, m)
              && |person| == 16 && Spells(person[..12], "ZcashSigHash") && U32(person, 12) == branchId
              && Lists(tx, prevouts, sequences, outputs)
              && PrefixFields(m, h, tx, prevouts, sequences, outputs)
              && InputFields(m[220..], tx.inputs[index], s)
  {
    PersonsMean(branchId);
    ListsMean(tx);
    PrefixMeans(h, tx, index, s);
    InputPartMeans(tx.inputs[index], s);
    assert Sighash(h, tx, index, s, branchId) == h(Person(branchId), Preimage(h, tx, index, s));
  }

  // --- the spending script --------------------------------------------------

  /** The byte strings a script of direct pushes (opcodes 1 to 75) puts on the stack. */
  function Pushes(script: seq<byte>): Option<seq<seq<byte>>> {
    if script == [] then Some([])
    else
      var n: int := script[0];
      if n < 1 || n > 75 || |script| < 1 + n then None
      else
        var rest := Pushes(script[1 + n..]);
        if rest.None? then None else Some([script[1..1 + n]] + rest.value)
  }

  lemma OnePush(data: seq<byte>, rest: seq<byte>)
    requires 1 <= |data| <= 75
    ensures Pushes([|data|] + data + rest)
         == if Pushes(rest).None? then None else Some([data] + Pushes(rest).value)
  {
    var script := [|data|] + data + rest;
    assert script[1..1 + |data|] == data && script[1 + |data|..] == rest;
  }

  /** The signature with SIGHASH_ALL behind it, then the public key, for every length a push can have. */
  lemma ScriptSigPushes(der: seq<byte>, publicKey: seq<byte>)
    requires |der| < 75 && 1 <= |publicKey| <= 75
    ensures Pushes(ScriptSig(der, publicKey)) == Some([der + [1], publicKey])
  {
    var sig := der + [SIGHASH_ALL];
    var second := [|publicKey|] + publicKey;
    OnePush(publicKey, []);
    assert second + [] == second && [publicKey] + [] == [publicKey];
    OnePush(sig, second);
    assert ScriptSig(der, publicKey) == [|sig|] + sig + second;
    assert [sig] + [publicKey] == [sig, publicKey];
  }

  /** The only scripts signed for pay a 20-byte key hash: DUP, HASH160, the hash, EQUALVERIFY, CHECKSIG. */
  lemma P2pkhMeans(script: seq<byte>)
    ensures IsP2pkh(script)
            <==> exists hash: seq<byte> :: |hash| == 20 && script == [0x76, 0xA9, 0x14] + hash + [0x88, 0xAC]
  {
    if IsP2pkh(script) {
      var hash := script[3..23];
      assert script == script[..3] + hash + script[23..];
      assert |hash| == 20 && script == [0x76, 0xA9, 0x14] + hash + [0x88, 0xAC];
    }
  }

  // --- the transaction on the wire ------------------------------------------

  lemma InputBytes(i: TxIn)
    requires InRangeIn(i)
    ensures All(InBytes, [i])
         == i.prevTxid + Le(i.vout, 4) + Count(|i.scriptSig|) + i.scriptSig + Le(i.sequence, 4)
  {
    CountMeans(|i.scriptSig|);
    assert [i][1..] == [] && InBytes(i) + [] == InBytes(i);
  }

  lemma OutputBytes(o: TxOut)
    requires InRangeOut(o)
    ensures All(OutBytes, [o]) == Le(o.value, 8) + Count(|o.script|) + o.script
  {
    CountMeans(|o.script|);
    assert [o][1..] == [] && OutBytes(o) + [] == OutBytes(o);
  }

  /** A transaction of one input and one output, byte for byte. */
  lemma OneInOneOut(tx: TxV4, i: TxIn, o: TxOut)
    requires InRangeIn(i) && InRangeOut(o) && Fits(tx.lockTime, 4) && Fits(tx.expiryHeight, 4)
    requires tx.inputs == [i] && tx.outputs == [o]
    ensures Bytes(tx)
         == [0x04, 0x00, 0x00, 0x80, 0x85, 0x20, 0x2F, 0x89]
            + [1] + (i.prevTxid + Le(i.vout, 4) + Count(|i.scriptSig|) + i.scriptSig + Le(i.sequence, 4))
            + [1] + (Le(o.value, 8) + Count(|o.script|) + o.script)
            + (Le(tx.lockTime, 4) + Le(tx.expiryHeight, 4) + [0, 0, 0, 0, 0, 0, 0, 0, 0, 0, 0])
    ensures U32(Le(i.vout, 4), 0) == i.vout && U32(Le(i.sequence, 4), 0) == i.sequence
    ensures U64(Le(o.value, 8), 0) == o.value
    ensures U32(Le(tx.lockTime, 4), 0) == tx.lockTime && U32(Le(tx.expiryHeight, 4), 0) == tx.expiryHeight
  {
    HeadMeans();
    InputBytes(i);
    OutputBytes(o);
    U32OfLe(i.vout);
    U32OfLe(i.sequence);
    U64OfLe(o.value);
    U32OfLe(tx.lockTime);
    U32OfLe(tx.expiryHeight);
    TailMeans(tx.lockTime, tx.expiryHeight);
  }

  lemma TailMeans(lockTime: int, expiryHeight: int)
    requires Fits(lockTime, 4) && Fits(expiryHeight, 4)
    ensures Tail(lockTime, expiryHeight)
         == Le(lockTime, 4) + Le(expiryHeight, 4) + [0, 0, 0, 0, 0, 0, 0, 0, 0, 0, 0]
  {
    LeFour(0);
    LeEight(0);
  }
}
