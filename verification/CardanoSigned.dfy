/** Signing a built Cardano transaction, and the check that reads the signed bytes back. */
module CardanoSigned {
  import opened CardanoBytes
  import opened CardanoRead
  import opened CardanoSelect
  import opened CardanoSigners
  import opened CardanoTx
  import opened Common
  import Coins

  /** A signature under the key with this public key. */
  type Signer = (seq<byte>, Digest) -> seq<byte>

  /** One witness for each key. */
  function Witnessed(keys: seq<seq<byte>>, digest: Digest, sign: Signer): (ws: seq<Witness>)
    ensures |ws| == |keys| && forall k :: 0 <= k < |keys| ==> ws[k] == (keys[k], sign(keys[k], digest))
  {
    if keys == [] then [] else [(keys[0], sign(keys[0], digest))] + Witnessed(keys[1..], digest, sign)
  }

  /** `sign`: the bytes, unless they read back as another id, another number of witnesses, other outputs or fee. */
  function Sign(b: AdaBuilt, h: Hash, text: ToText, sign: Signer): Result<seq<byte>, string> {
    var digest := Txid(b.tx, h);
    var raw := Serialize(b.tx, Witnessed(b.keys, digest, sign), h);
    var parsed :- Parse(raw, h, text);
    var view :- NeutralView(raw, h, text);
    if parsed.txid != digest || |parsed.witnesses| != |b.keys| || view.0 != b.outputs || view.1 != b.fee then
      Err("refusing to broadcast")
    else Ok(raw)
  }

  lemma {:induction false} SetOfDistinct<T>(s: seq<T>)
    requires NoDup(s)
    ensures |set x | x in s| == |s|
  {
    if s != [] {
      var init, last := s[..|s| - 1], s[|s| - 1];
      SetOfDistinct(init);
      assert s == init + [last];
      assert (set x | x in s) == (set x | x in init) + {last};
    }
  }

  /** Distinct keys make distinct witnesses. */
  lemma WitnessesDistinct(keys: seq<seq<byte>>, digest: Digest, sign: Signer)
    requires NoDup(keys)
    ensures NoDup(Witnessed(keys, digest, sign))
  {
  }

  /**
   * A built transaction, signed, always reads back: the check before
   * broadcasting never refuses, whatever the hash, as long as no two keys hash
   * alike, keys and signatures have their fixed lengths, and keys their owners.
   */
  lemma SignNeverRefuses(q: Request, p: ProtocolParams, sign: Signer)
    requires Built(q, p).Ok? && !KeysCollide(q.wallet, Built(q, p).value.chosen)
    requires forall path :: |q.wallet.publicKey(path)| == 32
    requires forall key, digest :: |sign(key, digest)| == 64
    ensures var b := Built(q, p).value;
            Sign(b, q.digest, q.text, sign)
            == Ok(Serialize(b.tx, Witnessed(b.keys, Txid(b.tx, q.digest), sign), q.digest))
  {
    var b := Built(q, p).value;
    var digest := Txid(b.tx, q.digest);
    var ws := Witnessed(b.keys, digest, sign);
    KeysAreKeys(q, b.chosen);
    SignedPays(q, p, ws);
    ParseOfSerialize(b.tx, ws, q.digest, q.text);
    NeutralViewOf(b.tx, ws, q.digest, q.text);
    WitnessesDistinct(b.keys, digest, sign);
    SetOfDistinct(ws);
  }

  lemma KeysAreKeys(q: Request, us: seq<Coins.Utxo>)
    requires forall path :: |q.wallet.publicKey(path)| == 32
    ensures forall k :: 0 <= k < |Keys(q.wallet, us)| ==> |Keys(q.wallet, us)[k]| == 32
  {
    forall k | 0 <= k < |Keys(q.wallet, us)| ensures |Keys(q.wallet, us)[k]| == 32 {
      assert Keys(q.wallet, us)[k] in Keys(q.wallet, us);
      var u :| u in us && KeyOf(q.wallet, u) == Keys(q.wallet, us)[k];
    }
  }
}
