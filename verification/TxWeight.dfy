/** What a signed native-segwit transaction weighs, next to the size its fee was reckoned on. */
module TxWeight {
  import opened Coins
  import opened Common
  import opened Rates

  // --- bytes (BIP 141, BIP 144) ---------------------------------------------

  /** A count before a list or a script. */
  function CountSize(n: nat): (r: nat)
    ensures r >= 1
  {
    if n < 253 then 1 else if n < 0x1_0000 then 3 else if n < 0x1_0000_0000 then 5 else 9
  }

  /** An input without its signature: outpoint, an empty script behind its count, sequence. */
  const INPUT_BYTES: nat := 32 + 4 + 1 + 4

  /** An output paying a key hash: value, and a 22-byte script behind its count. */
  const KEY_OUTPUT_BYTES: nat := 8 + 1 + 22

  /** The data output of a memo. */
  function DataOutputBytes(data: seq<byte>): nat
    requires EncodeOpReturn(data).Ok?
  {
    8 + 1 + |EncodeOpReturn(data).value|
  }

  /** A stack of two: the signature with its sighash byte, and a compressed key, each behind a count. */
  function WitnessBytes(signature: nat): nat { 1 + 1 + signature + 1 + 33 }

  function WitnessesBytes(signatures: seq<nat>): nat {
    if signatures == [] then 0 else WitnessBytes(signatures[0]) + WitnessesBytes(signatures[1..])
  }

  /** Four for every byte outside the witness, one for every byte in it, its marker and its flag. */
  function Weight(signatures: seq<nat>, outputs: nat, memo: Option<seq<byte>>): nat
    requires memo.Some? ==> EncodeOpReturn(memo.value).Ok?
  {
    4 * (4 + CountSize(|signatures|) + |signatures| * INPUT_BYTES
         + CountSize(outputs + (if memo.Some? then 1 else 0)) + outputs * KEY_OUTPUT_BYTES
         + (if memo.Some? then DataOutputBytes(memo.value) else 0) + 4)
    + 2 + WitnessesBytes(signatures)
  }

  /** A low-S signature in DER takes at most 71 bytes, and one says SIGHASH_ALL. */
  const LONGEST_SIGNATURE: nat := 72

  function Spared(signatures: seq<nat>): int {
    if signatures == [] then 0 else LONGEST_SIGNATURE - signatures[0] + Spared(signatures[1..])
  }

  lemma {:induction false} SparedBytes(signatures: seq<nat>, n: nat)
    requires n == |signatures|
    ensures WitnessesBytes(signatures) == 108 * n - Spared(signatures)
  {
    if signatures != [] { SparedBytes(signatures[1..], n - 1); }
  }

  /** What the estimate leaves out, in quarters of a virtual byte: wide counts, the longer push, an empty memo. */
  function Overlooked(inputs: nat, outputs: nat, memo: Option<seq<byte>>): nat {
    4 * (CountSize(inputs) - 1) + 4 * (CountSize(outputs + (if memo.Some? then 1 else 0)) - 1)
    + (if memo.Some? && |memo.value| > 75 then 4 else 0) + (if memo == Some([]) then 44 else 0)
  }

  lemma Products(n: nat, m: nat)
    ensures n * INPUT_BYTES == 41 * n && m * KEY_OUTPUT_BYTES == 31 * m
  {
  }

  lemma EstimateInNumbers(n: nat, m: nat, memoLen: nat)
    ensures EstimateVsize(n, m, memoLen, P2WPKH) == 11 + 68 * n + 31 * m + if memoLen > 0 then 11 + memoLen else 0
  {
  }

  /**
   * The estimate, against the weight of the transaction as it is signed: half a
   * virtual byte and whatever the signatures fall short of their longest to the
   * good, less what it overlooks.
   */
  lemma EstimateAgainstWeight(signatures: seq<nat>, outputs: nat, memo: Option<seq<byte>>)
    requires memo.Some? ==> EncodeOpReturn(memo.value).Ok?
    ensures 4 * EstimateVsize(|signatures|, outputs, if memo.Some? then |memo.value| else 0, P2WPKH)
         == Weight(signatures, outputs, memo) + 2 + Spared(signatures) - Overlooked(|signatures|, outputs, memo)
  {
    var n := |signatures|;
    SparedBytes(signatures, n);
    Products(n, outputs);
    EstimateInNumbers(n, outputs, if memo.Some? then |memo.value| else 0);
    if memo.Some? { OpReturnLength(memo.value); }
  }

  lemma OpReturnLength(data: seq<byte>)
    requires EncodeOpReturn(data).Ok?
    ensures |EncodeOpReturn(data).value| == |data| + if |data| > 75 then 3 else 2
  {
  }

  lemma {:induction false} SparedNonNegative(signatures: seq<nat>)
    requires forall k :: 0 <= k < |signatures| ==> signatures[k] <= 72
    ensures Spared(signatures) >= 0
  {
    if signatures != [] { SparedNonNegative(signatures[1..]); }
  }

  /**
   * A fee at a rate on the estimate is at least that rate on the transaction as
   * signed, if it has fewer than 253 inputs and outputs and no memo or one of 1
   * to 75 bytes.
   */
  lemma FeeCoversWeight(signatures: seq<nat>, outputs: nat, memo: Option<seq<byte>>, rate: Rate, fee: int)
    requires forall k :: 0 <= k < |signatures| ==> signatures[k] <= 72
    requires |signatures| < 253 && outputs < 252 && (memo.Some? ==> 1 <= |memo.value| <= 75) && rate.num >= 0
    requires fee >= CeilAt(EstimateVsize(|signatures|, outputs, if memo.Some? then |memo.value| else 0, P2WPKH), rate)
    ensures 4 * fee * rate.den >= Weight(signatures, outputs, memo) * rate.num
  {
    var size := EstimateVsize(|signatures|, outputs, if memo.Some? then |memo.value| else 0, P2WPKH);
    EstimateAgainstWeight(signatures, outputs, memo);
    SparedNonNegative(signatures);
    CeilAtGalois(size, rate, fee);
    Scale(Weight(signatures, outputs, memo), 4 * size, rate.num);
    assert 4 * fee * rate.den == 4 * (fee * rate.den) && 4 * size * rate.num == 4 * (size * rate.num);
  }

  /** 76 bytes of memo, and the estimate can be a virtual byte too small. */
  lemma LongMemoOverlooked(signatures: seq<nat>, memo: seq<byte>)
    requires signatures == [72] && |memo| == 76
    ensures 4 * EstimateVsize(1, 1, 76, P2WPKH) == Weight(signatures, 1, Some(memo)) - 2
  {
    EstimateAgainstWeight(signatures, 1, Some(memo));
    assert Spared([72]) == 0 by { assert [72][1..] == []; }
  }
}
