/** The ZIP-243 signature digest of a transparent v4 transaction, and signing with it. */
module ZcashSighash {
  import opened Common
  import opened LittleEndian
  import opened ZcashTx

  /** BLAKE2b-256: a personalization and a message to 32 bytes. Nothing else is known of it. */
  type Hash = (seq<byte>, seq<byte>) -> seq<byte>

  ghost predicate Is256(h: Hash) { forall p, m :: |h(p, m)| == 32 }

  /** Two different hashed messages (with their personalizations) that hash alike. */
  predicate Collide(h: Hash, p: seq<byte>, m: seq<byte>, q: seq<byte>, n: seq<byte>) {
    (p != q || m != n) && h(p, m) == h(q, n)
  }

  const SIGHASH_ALL := 1
  const PREVOUT_PERSON: seq<byte> := [0x5A, 0x63, 0x61, 0x73, 0x68, 0x50, 0x72, 0x65, 0x76, 0x6F, 0x75, 0x74, 0x48,
                                      0x61, 0x73, 0x68]
  const SEQUENCE_PERSON: seq<byte> := [0x5A, 0x63, 0x61, 0x73, 0x68, 0x53, 0x65, 0x71, 0x75, 0x65, 0x6E, 0x63, 0x48,
                                       0x61, 0x73, 0x68]
  const OUTPUTS_PERSON: seq<byte> := [0x5A, 0x63, 0x61, 0x73, 0x68, 0x4F, 0x75, 0x74, 0x70, 0x75, 0x74, 0x73, 0x48,
                                      0x61, 0x73, 0x68]
  const SIGHASH_PERSON: seq<byte> := [0x5A, 0x63, 0x61, 0x73, 0x68, 0x53, 0x69, 0x67, 0x48, 0x61, 0x73, 0x68]

  function Prevout(i: TxIn): seq<byte>
    requires Fits(i.vout, 4)
  {
    i.prevTxid + Le(i.vout, 4)
  }

  function Sequence(i: TxIn): seq<byte>
    requires Fits(i.sequence, 4)
  {
    Le(i.sequence, 4)
  }

  /** Everything the digest covers can be packed; `sighash_zip243` raises otherwise. */
  predicate Hashable(tx: TxV4) {
    && Fits(tx.lockTime, 4) && Fits(tx.expiryHeight, 4)
    && (forall k :: 0 <= k < |tx.inputs| ==> Fits(tx.inputs[k].vout, 4))
    && (forall k :: 0 <= k < |tx.inputs| ==> Fits(tx.inputs[k].sequence, 4))
    && (forall k :: 0 <= k < |tx.outputs| ==> InRangeOut(tx.outputs[k]))
  }

  /** The spent output: its script and its value. */
  datatype Spent = Spent(script: seq<byte>, value: int)

  predicate HashableSpent(s: Spent, branchId: int) {
    |s.script| <= MAX_VARINT && Fits(s.value, 8) && Fits(branchId, 4)
  }

  /** The three hashes over the whole transaction. */
  function Hashes(h: Hash, tx: TxV4): seq<byte>
    requires Hashable(tx)
  {
    h(PREVOUT_PERSON, All(Prevout, tx.inputs)) + h(SEQUENCE_PERSON, All(Sequence, tx.inputs))
    + h(OUTPUTS_PERSON, All(OutBytes, tx.outputs))
  }

  /** No join splits, shielded spends or shielded outputs. */
  function NoShielded(): (r: seq<byte>)
    ensures |r| == 96
  {
    Le(0, 96)
  }

  /** The input being signed, with the output it spends. */
  function InputPart(i: TxIn, s: Spent): seq<byte>
    requires Fits(i.vout, 4) && Fits(i.sequence, 4) && |s.script| <= MAX_VARINT && Fits(s.value, 8)
  {
    i.prevTxid + Le(i.vout, 4) + (Varint(|s.script|) + s.script) + Le(s.value, 8) + Le(i.sequence, 4)
  }

  function Preimage(h: Hash, tx: TxV4, index: nat, s: Spent): seq<byte>
    requires Hashable(tx) && index < |tx.inputs| && |s.script| <= MAX_VARINT && Fits(s.value, 8)
  {
    Head() + Hashes(h, tx) + NoShielded()
    + Le(tx.lockTime, 4) + Le(tx.expiryHeight, 4) + (Le(0, 8) + Le(SIGHASH_ALL, 4))
    + InputPart(tx.inputs[index], s)
  }

  function Person(branchId: int): seq<byte>
    requires Fits(branchId, 4)
  {
    SIGHASH_PERSON + Le(branchId, 4)
  }

  /** `sighash_zip243`. */
  function Sighash(h: Hash, tx: TxV4, index: nat, s: Spent, branchId: int): seq<byte>
    requires Hashable(tx) && index < |tx.inputs| && HashableSpent(s, branchId)
  {
    h(Person(branchId), Preimage(h, tx, index, s))
  }

  // --- the digest does not cover script signatures --------------------------

  /** The same transaction but for its script signatures. */
  ghost predicate SameUnsigned(a: TxV4, b: TxV4) {
    && |a.inputs| == |b.inputs| && a.outputs == b.outputs
    && a.lockTime == b.lockTime && a.expiryHeight == b.expiryHeight
    && forall k :: 0 <= k < |a.inputs| ==> a.inputs[k].(scriptSig := b.inputs[k].scriptSig) == b.inputs[k]
  }

  lemma {:induction false} AllEqual<T>(f: T --> seq<byte>, xs: seq<T>, ys: seq<T>)
    requires |xs| == |ys|
    requires forall k :: 0 <= k < |xs| ==> f.requires(xs[k])
    requires forall k :: 0 <= k < |ys| ==> f.requires(ys[k])
    requires forall k :: 0 <= k < |xs| ==> f(xs[k]) == f(ys[k])
    ensures All(f, xs) == All(f, ys)
  {
    if xs != [] {
      AllEqual(f, xs[1..], ys[1..]);
    }
  }

  /** Filling in script signatures changes no digest of any input. */
  lemma SighashIgnoresScriptSigs(h: Hash, a: TxV4, b: TxV4, index: nat, s: Spent, branchId: int)
    requires SameUnsigned(a, b) && Hashable(a) && index < |a.inputs| && HashableSpent(s, branchId)
    ensures Hashable(b) && Sighash(h, a, index, s, branchId) == Sighash(h, b, index, s, branchId)
  {
    forall k | 0 <= k < |b.inputs| ensures Fits(b.inputs[k].vout, 4) && Fits(b.inputs[k].sequence, 4) {
      assert a.inputs[k].(scriptSig := b.inputs[k].scriptSig) == b.inputs[k];
    }
    HashesIgnoreScriptSigs(h, a, b);
    assert a.inputs[index].(scriptSig := b.inputs[index].scriptSig) == b.inputs[index];
    assert InputPart(a.inputs[index], s) == InputPart(b.inputs[index], s);
  }

  lemma HashesIgnoreScriptSigs(h: Hash, a: TxV4, b: TxV4)
    requires SameUnsigned(a, b) && Hashable(a) && Hashable(b)
    ensures Hashes(h, a) == Hashes(h, b)
  {
    forall k | 0 <= k < |a.inputs|
      ensures Prevout(a.inputs[k]) == Prevout(b.inputs[k]) && Sequence(a.inputs[k]) == Sequence(b.inputs[k])
    {
      assert a.inputs[k].(scriptSig := b.inputs[k].scriptSig) == b.inputs[k];
    }
    AllEqual(Prevout, a.inputs, b.inputs);
    AllEqual(Sequence, a.inputs, b.inputs);
  }

  // --- equal digests bind everything they cover -----------------------------

  lemma Peel(a1: seq<byte>, a2: seq<byte>, b1: seq<byte>, b2: seq<byte>)
    requires a1 + a2 == b1 + b2 && (|a1| == |b1| || |a2| == |b2|)
    ensures a1 == b1 && a2 == b2
  {
    assert |a1 + a2| == |b1 + b2|;
    assert (a1 + a2)[..|a1|] == a1 && (a1 + a2)[|a1|..] == a2;
    assert (b1 + b2)[..|b1|] == b1 && (b1 + b2)[|b1|..] == b2;
  }

  /** Counted bytes followed by anything: the count and the bytes are determined. */
  lemma CountedBytesBind(x: seq<byte>, s: seq<byte>, y: seq<byte>, t: seq<byte>)
    requires |x| <= MAX_VARINT && |y| <= MAX_VARINT
    requires Varint(|x|) + x + s == Varint(|y|) + y + t
    ensures x == y && s == t
  {
    VarintBinds(|x|, x + s, |y|, y + t, Varint(|x|) + x + s);
    assert Varint(|x|) + x + s == Varint(|x|) + (x + s) && Varint(|y|) + y + t == Varint(|y|) + (y + t);
    Peel(Varint(|x|), x + s, Varint(|y|), y + t);
    Peel(x, s, y, t);
  }

  lemma VarintBinds(m: nat, s: seq<byte>, n: nat, t: seq<byte>, whole: seq<byte>)
    requires m <= MAX_VARINT && n <= MAX_VARINT && whole == Varint(m) + s == Varint(n) + t
    ensures m == n
  {
    assert whole[0] == Varint(m)[0] == Varint(n)[0];
    if m >= 0xFD {
      assert whole[1..3] == Varint(m)[1..] == Le(m, 2) && whole[1..3] == Varint(n)[1..] == Le(n, 2);
      FitsBounds(m);
      FitsBounds(n);
      LeInjective(m, n, 2);
    }
  }

  /** No encoding of an item is the beginning of the encoding of another. */
  ghost predicate SelfDelimiting<T(!new)>(f: T --> seq<byte>, xs: seq<T>, ys: seq<T>)
    requires forall k :: 0 <= k < |xs| ==> f.requires(xs[k])
    requires forall k :: 0 <= k < |ys| ==> f.requires(ys[k])
  {
    && (forall k :: 0 <= k < |xs| ==> f(xs[k]) != [])
    && (forall k :: 0 <= k < |ys| ==> f(ys[k]) != [])
    && forall j, k, s, t :: 0 <= j < |xs| && 0 <= k < |ys| && f(xs[j]) + s == f(ys[k]) + t ==> |f(xs[j])| == |f(ys[k])|
  }

  /** Lists with the same encoding have the same length and the same encodings, item by item. */
  lemma {:induction false} AllBinds<T(!new)>(f: T --> seq<byte>, xs: seq<T>, ys: seq<T>)
    requires forall k :: 0 <= k < |xs| ==> f.requires(xs[k])
    requires forall k :: 0 <= k < |ys| ==> f.requires(ys[k])
    requires SelfDelimiting(f, xs, ys) && All(f, xs) == All(f, ys)
    ensures |xs| == |ys| && forall k :: 0 <= k < |xs| ==> f(xs[k]) == f(ys[k])
    decreases |xs|
  {
    if xs != [] && ys != [] {
      Peel(f(xs[0]), All(f, xs[1..]), f(ys[0]), All(f, ys[1..]));
      AllBinds(f, xs[1..], ys[1..]);
      forall k | 0 <= k < |xs| ensures f(xs[k]) == f(ys[k]) {
        if k > 0 { assert xs[k] == xs[1..][k - 1] && ys[k] == ys[1..][k - 1]; }
      }
    }
  }

  ghost predicate FullTxids(tx: TxV4) { forall k :: 0 <= k < |tx.inputs| ==> |tx.inputs[k].prevTxid| == 32 }

  /** The same outpoints and sequence numbers, in the same order. */
  ghost predicate SameInputs(a: seq<TxIn>, b: seq<TxIn>) {
    |a| == |b| && forall k :: 0 <= k < |a| ==>
      a[k].prevTxid == b[k].prevTxid && a[k].vout == b[k].vout && a[k].sequence == b[k].sequence
  }

  lemma PrevoutsBind(a: TxV4, b: TxV4)
    requires Hashable(a) && Hashable(b) && FullTxids(a) && FullTxids(b)
    requires All(Prevout, a.inputs) == All(Prevout, b.inputs)
    ensures |a.inputs| == |b.inputs|
    ensures forall k :: 0 <= k < |a.inputs| ==>
              a.inputs[k].prevTxid == b.inputs[k].prevTxid && a.inputs[k].vout == b.inputs[k].vout
  {
    assert forall k :: 0 <= k < |a.inputs| ==> |Prevout(a.inputs[k])| == 36;
    assert forall k :: 0 <= k < |b.inputs| ==> |Prevout(b.inputs[k])| == 36;
    AllBinds(Prevout, a.inputs, b.inputs);
    forall k | 0 <= k < |a.inputs|
      ensures a.inputs[k].prevTxid == b.inputs[k].prevTxid && a.inputs[k].vout == b.inputs[k].vout
    {
      var i, j := a.inputs[k], b.inputs[k];
      assert Prevout(i) == Prevout(j);
      Peel(i.prevTxid, Le(i.vout, 4), j.prevTxid, Le(j.vout, 4));
      LeInjective(i.vout, j.vout, 4);
    }
  }

  lemma SequencesBind(a: TxV4, b: TxV4)
    requires Hashable(a) && Hashable(b) && All(Sequence, a.inputs) == All(Sequence, b.inputs)
    ensures |a.inputs| == |b.inputs|
    ensures forall k :: 0 <= k < |a.inputs| ==> a.inputs[k].sequence == b.inputs[k].sequence
  {
    AllBinds(Sequence, a.inputs, b.inputs);
    forall k | 0 <= k < |a.inputs| ensures a.inputs[k].sequence == b.inputs[k].sequence {
      assert Sequence(a.inputs[k]) == Sequence(b.inputs[k]);
      LeInjective(a.inputs[k].sequence, b.inputs[k].sequence, 4);
    }
  }

  lemma OutputBinds(x: TxOut, s: seq<byte>, y: TxOut, t: seq<byte>)
    requires InRangeOut(x) && InRangeOut(y) && OutBytes(x) + s == OutBytes(y) + t
    ensures x == y
  {
    var p, q := Varint(|x.script|) + x.script + s, Varint(|y.script|) + y.script + t;
    assert OutBytes(x) + s == Le(x.value, 8) + p && OutBytes(y) + t == Le(y.value, 8) + q;
    Peel(Le(x.value, 8), p, Le(y.value, 8), q);
    LeInjective(x.value, y.value, 8);
    CountedBytesBind(x.script, s, y.script, t);
  }

  lemma OutputsBind(a: TxV4, b: TxV4)
    requires Hashable(a) && Hashable(b) && All(OutBytes, a.outputs) == All(OutBytes, b.outputs)
    ensures a.outputs == b.outputs
  {
    forall j, k, s, t | 0 <= j < |a.outputs| && 0 <= k < |b.outputs|
                        && OutBytes(a.outputs[j]) + s == OutBytes(b.outputs[k]) + t
      ensures |OutBytes(a.outputs[j])| == |OutBytes(b.outputs[k])|
    {
      OutputBinds(a.outputs[j], s, b.outputs[k], t);
    }
    AllBinds(OutBytes, a.outputs, b.outputs);
    forall k | 0 <= k < |a.outputs| ensures a.outputs[k] == b.outputs[k] {
      OutputBinds(a.outputs[k], [], b.outputs[k], []);
    }
  }

  /** Which of the hashed messages could be to blame if two digests agree without agreeing on what they cover. */
  predicate CollisionFound(h: Hash, a: TxV4, s: Spent, p: int, b: TxV4, t: Spent, q: int, index: nat)
    requires Hashable(a) && Hashable(b) && index < |a.inputs| && index < |b.inputs|
    requires HashableSpent(s, p) && HashableSpent(t, q)
  {
    || Collide(h, Person(p), Preimage(h, a, index, s), Person(q), Preimage(h, b, index, t))
    || Collide(h, PREVOUT_PERSON, All(Prevout, a.inputs), PREVOUT_PERSON, All(Prevout, b.inputs))
    || Collide(h, SEQUENCE_PERSON, All(Sequence, a.inputs), SEQUENCE_PERSON, All(Sequence, b.inputs))
    || Collide(h, OUTPUTS_PERSON, All(OutBytes, a.outputs), OUTPUTS_PERSON, All(OutBytes, b.outputs))
  }

  lemma InputPartBinds(i: TxIn, s: Spent, j: TxIn, t: Spent)
    requires Fits(i.vout, 4) && Fits(i.sequence, 4) && |s.script| <= MAX_VARINT && Fits(s.value, 8)
    requires Fits(j.vout, 4) && Fits(j.sequence, 4) && |t.script| <= MAX_VARINT && Fits(t.value, 8)
    requires |i.prevTxid| == |j.prevTxid| && InputPart(i, s) == InputPart(j, t)
    ensures s == t
  {
    var v, w := Varint(|s.script|) + s.script, Varint(|t.script|) + t.script;
    Peel(i.prevTxid + Le(i.vout, 4) + v + Le(s.value, 8), Le(i.sequence, 4),
         j.prevTxid + Le(j.vout, 4) + w + Le(t.value, 8), Le(j.sequence, 4));
    Peel(i.prevTxid + Le(i.vout, 4) + v, Le(s.value, 8), j.prevTxid + Le(j.vout, 4) + w, Le(t.value, 8));
    Peel(i.prevTxid + Le(i.vout, 4), v, j.prevTxid + Le(j.vout, 4), w);
    LeInjective(s.value, t.value, 8);
    assert v + [] == v && w + [] == w;
    CountedBytesBind(s.script, [], t.script, []);
  }

  /** Equal concatenations of seven pieces, the first six of equal lengths. */
  lemma SevenBind(a1: seq<byte>, a2: seq<byte>, a3: seq<byte>, a4: seq<byte>, a5: seq<byte>, a6: seq<byte>,
                  a7: seq<byte>,
                  b1: seq<byte>, b2: seq<byte>, b3: seq<byte>, b4: seq<byte>, b5: seq<byte>, b6: seq<byte>,
                  b7: seq<byte>)
    requires |a1| == |b1| && |a2| == |b2| && |a3| == |b3| && |a4| == |b4| && |a5| == |b5| && |a6| == |b6|
    requires a1 + a2 + a3 + a4 + a5 + a6 + a7 == b1 + b2 + b3 + b4 + b5 + b6 + b7
    ensures a2 == b2 && a4 == b4 && a5 == b5 && a7 == b7
  {
    Peel(a1 + a2 + a3 + a4 + a5 + a6, a7, b1 + b2 + b3 + b4 + b5 + b6, b7);
    Peel(a1 + a2 + a3 + a4 + a5, a6, b1 + b2 + b3 + b4 + b5, b6);
    Peel(a1 + a2 + a3 + a4, a5, b1 + b2 + b3 + b4, b5);
    Peel(a1 + a2 + a3, a4, b1 + b2 + b3, b4);
    Peel(a1 + a2, a3, b1 + b2, b3);
    Peel(a1, a2, b1, b2);
  }

  lemma PreimageBinds(h: Hash, a: TxV4, s: Spent, b: TxV4, t: Spent, index: nat)
    requires Is256(h) && Hashable(a) && Hashable(b) && index < |a.inputs| && index < |b.inputs|
    requires |s.script| <= MAX_VARINT && Fits(s.value, 8) && |t.script| <= MAX_VARINT && Fits(t.value, 8)
    requires |a.inputs[index].prevTxid| == |b.inputs[index].prevTxid|
    requires Preimage(h, a, index, s) == Preimage(h, b, index, t)
    ensures Hashes(h, a) == Hashes(h, b) && a.lockTime == b.lockTime && a.expiryHeight == b.expiryHeight && s == t
  {
    var rest := Le(0, 8) + Le(SIGHASH_ALL, 4);
    SevenBind(Head(), Hashes(h, a), NoShielded(), Le(a.lockTime, 4), Le(a.expiryHeight, 4), rest,
              InputPart(a.inputs[index], s),
              Head(), Hashes(h, b), NoShielded(), Le(b.lockTime, 4), Le(b.expiryHeight, 4), rest,
              InputPart(b.inputs[index], t));
    LeInjective(a.lockTime, b.lockTime, 4);
    LeInjective(a.expiryHeight, b.expiryHeight, 4);
    InputPartBinds(a.inputs[index], s, b.inputs[index], t);
  }

  lemma HashesBind(h: Hash, a: TxV4, b: TxV4)
    requires Is256(h) && Hashable(a) && Hashable(b) && Hashes(h, a) == Hashes(h, b)
    ensures h(PREVOUT_PERSON, All(Prevout, a.inputs)) == h(PREVOUT_PERSON, All(Prevout, b.inputs))
    ensures h(SEQUENCE_PERSON, All(Sequence, a.inputs)) == h(SEQUENCE_PERSON, All(Sequence, b.inputs))
    ensures h(OUTPUTS_PERSON, All(OutBytes, a.outputs)) == h(OUTPUTS_PERSON, All(OutBytes, b.outputs))
  {
    var p, q := h(PREVOUT_PERSON, All(Prevout, a.inputs)), h(PREVOUT_PERSON, All(Prevout, b.inputs));
    var s, t := h(SEQUENCE_PERSON, All(Sequence, a.inputs)), h(SEQUENCE_PERSON, All(Sequence, b.inputs));
    Peel(p + s, h(OUTPUTS_PERSON, All(OutBytes, a.outputs)), q + t, h(OUTPUTS_PERSON, All(OutBytes, b.outputs)));
    Peel(p, s, q, t);
  }

  /**
   * Two equal digests for one input index cover the same outpoints, sequences,
   * outputs, lock time, expiry, spent script, spent value and branch id, unless
   * two of the messages hashed on the way collide.
   */
  lemma EqualDigestsBind(h: Hash, a: TxV4, s: Spent, p: int, b: TxV4, t: Spent, q: int, index: nat)
    requires Is256(h) && Hashable(a) && Hashable(b) && FullTxids(a) && FullTxids(b)
    requires index < |a.inputs| && index < |b.inputs| && HashableSpent(s, p) && HashableSpent(t, q)
    requires Sighash(h, a, index, s, p) == Sighash(h, b, index, t, q)
    ensures CollisionFound(h, a, s, p, b, t, q, index)
         || (SameInputs(a.inputs, b.inputs) && a.outputs == b.outputs && a.lockTime == b.lockTime
             && a.expiryHeight == b.expiryHeight && s == t && p == q)
  {
    if !CollisionFound(h, a, s, p, b, t, q, index) {
      Peel(SIGHASH_PERSON, Le(p, 4), SIGHASH_PERSON, Le(q, 4));
      LeInjective(p, q, 4);
      PreimageBinds(h, a, s, b, t, index);
      HashesBind(h, a, b);
      PrevoutsBind(a, b);
      SequencesBind(a, b);
      OutputsBind(a, b);
    }
  }

  // --- signing --------------------------------------------------------------

  /** ECDSA as the program uses it: DER signatures, compressed public keys. */
  datatype Ecdsa = Ecdsa(sign: (seq<byte>, seq<byte>) -> seq<byte>,
                         publicKey: seq<byte> -> seq<byte>,
                         verify: (seq<byte>, seq<byte>, seq<byte>) -> bool)

  predicate IsP2pkh(script: seq<byte>) {
    |script| == 25 && script[..3] == [0x76, 0xA9, 0x14] && script[23..] == [0x88, 0xAC]
  }

  /** `<sig><pubkey>`, each behind a one-byte length. */
  function ScriptSig(der: seq<byte>, publicKey: seq<byte>): seq<byte>
    requires |der| < 255 && |publicKey| <= 255
  {
    [|der| + 1] + (der + [SIGHASH_ALL]) + [|publicKey|] + publicKey
  }

  /** `i` carries a signature over `digest` that `key`'s own public key verifies. */
  predicate SignedInput(ecdsa: Ecdsa, i: TxIn, key: seq<byte>, digest: seq<byte>) {
    var der, publicKey := ecdsa.sign(key, digest), ecdsa.publicKey(key);
    && ecdsa.verify(publicKey, der, digest)
    && |der| < 255 && |publicKey| <= 255 && i.scriptSig == ScriptSig(der, publicKey)
  }

  predicate CanSign(h: Hash, ecdsa: Ecdsa, tx: TxV4, k: nat, s: Spent, key: seq<byte>, branchId: int)
    requires k < |tx.inputs|
  {
    && IsP2pkh(s.script) && Hashable(tx) && HashableSpent(s, branchId)
    && var digest := Sighash(h, tx, k, s, branchId);
       var der, publicKey := ecdsa.sign(key, digest), ecdsa.publicKey(key);
       ecdsa.verify(publicKey, der, digest) && |der| < 255 && |publicKey| <= 255
  }

  /** Input `k` of `filled` is that of `tx` with a script signature valid for `tx`. */
  predicate SignedAt(h: Hash, ecdsa: Ecdsa, tx: TxV4, k: nat, s: Spent, key: seq<byte>, branchId: int, i: TxIn)
    requires k < |tx.inputs|
  {
    && CanSign(h, ecdsa, tx, k, s, key, branchId)
    && SignedInput(ecdsa, i, key, Sighash(h, tx, k, s, branchId))
    && tx.inputs[k].(scriptSig := i.scriptSig) == i
  }

  /** The body of the signing loop. */
  method SignInput(h: Hash, ecdsa: Ecdsa, tx: TxV4, k: nat, s: Spent, key: seq<byte>, branchId: int)
    returns (r: Result<TxIn, string>)
    requires k < |tx.inputs|
    ensures r.Ok? <==> CanSign(h, ecdsa, tx, k, s, key, branchId)
    ensures r.Ok? ==> SignedAt(h, ecdsa, tx, k, s, key, branchId, r.value)
  {
    if !IsP2pkh(s.script) {
      return Err("input spends a non-P2PKH output");
    }
    if !Hashable(tx) || !HashableSpent(s, branchId) {
      return Err("field out of range");
    }
    var digest := Sighash(h, tx, k, s, branchId);
    var der := ecdsa.sign(key, digest);
    var publicKey := ecdsa.publicKey(key);
    if !ecdsa.verify(publicKey, der, digest) {
      return Err("self-check failed: signature invalid");
    }
    if |der| >= 255 || |publicKey| > 255 {
      return Err("push too long");
    }
    return Ok(tx.inputs[k].(scriptSig := ScriptSig(der, publicKey)));
  }

  lemma StillSigned(h: Hash, ecdsa: Ecdsa, tx: TxV4, filled: TxV4, k: nat, s: Spent, key: seq<byte>, branchId: int)
    requires SameUnsigned(tx, filled) && k < |tx.inputs|
             && SignedAt(h, ecdsa, tx, k, s, key, branchId, filled.inputs[k])
    ensures SignedAt(h, ecdsa, filled, k, s, key, branchId, filled.inputs[k])
  {
    SighashIgnoresScriptSigs(h, tx, filled, k, s, branchId);
  }

  /** The inputs signed so far, each over a digest of `tx`. */
  ghost predicate SignedUpTo(h: Hash, ecdsa: Ecdsa, tx: TxV4, spent: seq<Spent>, keys: seq<seq<byte>>, branchId: int,
                             signed: seq<TxIn>)
  {
    && |signed| <= |tx.inputs| == |spent| == |keys|
    && forall k :: 0 <= k < |signed| ==> SignedAt(h, ecdsa, tx, k, spent[k], keys[k], branchId, signed[k])
  }

  lemma FilledIsSigned(h: Hash, ecdsa: Ecdsa, tx: TxV4, spent: seq<Spent>, keys: seq<seq<byte>>, branchId: int,
                       signed: seq<TxIn>)
    requires SignedUpTo(h, ecdsa, tx, spent, keys, branchId, signed) && |signed| == |tx.inputs|
    ensures var filled := tx.(inputs := signed);
            && SameUnsigned(tx, filled) && SignedUpTo(h, ecdsa, filled, spent, keys, branchId, signed)
            && forall k :: 0 <= k < |tx.inputs| ==> CanSign(h, ecdsa, tx, k, spent[k], keys[k], branchId)
  {
    var filled := tx.(inputs := signed);
    forall k | 0 <= k < |tx.inputs|
      ensures tx.inputs[k].(scriptSig := signed[k].scriptSig) == signed[k]
      ensures CanSign(h, ecdsa, tx, k, spent[k], keys[k], branchId)
    {
      assert SignedAt(h, ecdsa, tx, k, spent[k], keys[k], branchId, signed[k]);
    }
    forall k | 0 <= k < |signed| ensures SignedAt(h, ecdsa, filled, k, spent[k], keys[k], branchId, signed[k]) {
      StillSigned(h, ecdsa, tx, filled, k, spent[k], keys[k], branchId);
    }
  }

  /**
   * `sign_transparent`: the returned transaction is the given one with every
   * script signature filled, each holding a signature that verifies over the
   * digest of the returned transaction itself.
   */
  method SignTransparent(h: Hash, ecdsa: Ecdsa, tx: TxV4, spent: seq<Spent>, keys: seq<seq<byte>>, branchId: int)
    returns (r: Result<TxV4, string>)
    ensures r.Ok? <==> |tx.inputs| == |spent| == |keys|
                       && forall k :: 0 <= k < |tx.inputs| ==> CanSign(h, ecdsa, tx, k, spent[k], keys[k], branchId)
    ensures r.Ok? ==> SameUnsigned(tx, r.value) && |r.value.inputs| == |tx.inputs|
                      && SignedUpTo(h, ecdsa, r.value, spent, keys, branchId, r.value.inputs)
  {
    if !(|tx.inputs| == |spent| == |keys|) {
      return Err("inputs, spent outputs and keys must align 1:1");
    }
    var signed: seq<TxIn> := [];
    for k := 0 to |tx.inputs|
      invariant SignedUpTo(h, ecdsa, tx, spent, keys, branchId, signed) && |signed| == k
    {
      var i := SignInput(h, ecdsa, tx, k, spent[k], keys[k], branchId);
      if i.Err? {
        return Err(i.error);
      }
      signed := signed + [i.value];
    }
    FilledIsSigned(h, ecdsa, tx, spent, keys, branchId, signed);
    return Ok(tx.(inputs := signed));
  }
}
