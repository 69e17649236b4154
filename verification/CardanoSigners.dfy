/** Who signs a Cardano spend: one key per distinct public key, each proven to own the coins it signs for. */
module CardanoSigners {
  import opened Common
  import opened Coins

  const DEFAULT_DERIVATION := "m/1852'/1815'/0'/0/0"

  /** Deriving public keys, reading the payment credential of an address, and hashing a key to one. */
  datatype Wallet = Wallet(publicKey: string -> seq<byte>, credential: string -> Option<seq<byte>>,
                           hash: seq<byte> -> seq<byte>)

  function KeyOf(w: Wallet, u: Utxo): seq<byte> { w.publicKey(PathOf(u, DEFAULT_DERIVATION)) }

  /** The key at the coin's path is the one its address pays. */
  predicate Owns(w: Wallet, u: Utxo) { w.credential(u.address) == Some(w.hash(KeyOf(w, u))) }

  predicate OwnsAll(w: Wallet, us: seq<Utxo>) { forall u :: u in us ==> Owns(w, u) }

  /** The dictionary's keys: the distinct public keys, in order of first appearance. */
  function Keys(w: Wallet, us: seq<Utxo>): (r: seq<seq<byte>>)
    ensures NoDup(r)
    ensures forall k :: k in r <==> exists u :: u in us && KeyOf(w, u) == k
  {
    if us == [] then []
    else
      var init, last := us[..|us| - 1], us[|us| - 1];
      assert us == init + [last];
      var before := Keys(w, init);
      if KeyOf(w, last) in before then before else before + [KeyOf(w, last)]
  }

  /** `_signing_keys`. */
  method SigningKeys(w: Wallet, us: seq<Utxo>) returns (r: Result<seq<seq<byte>>, string>)
    ensures r == if OwnsAll(w, us) then Ok(Keys(w, us)) else Err("refusing to sign")
  {
    var keys: seq<seq<byte>> := [];
    for k := 0 to |us|
      invariant OwnsAll(w, us[..k]) && keys == Keys(w, us[..k])
    {
      assert us[..k + 1] == us[..k] + [us[k]] && us[..k + 1][..k] == us[..k];
      if !Owns(w, us[k]) {
        return Err("refusing to sign");
      }
      if KeyOf(w, us[k]) !in keys {
        keys := keys + [KeyOf(w, us[k])];
      }
    }
    assert us[..|us|] == us;
    return Ok(keys);
  }

  function AddressesOf(us: seq<Utxo>): set<string> { set u | u in us :: u.address }

  /** One witness per distinct address is what the size and the fee are reckoned on. */
  function Witnesses(us: seq<Utxo>): nat { |AddressesOf(us)| }

  lemma WitnessesNext(init: seq<Utxo>, last: Utxo)
    ensures Witnesses(init + [last]) == Witnesses(init) + if last.address in AddressesOf(init) then 0 else 1
  {
    var us := init + [last];
    assert AddressesOf(us) == AddressesOf(init) + {last.address} by {
      forall a ensures a in AddressesOf(us) <==> a in AddressesOf(init) || a == last.address {
        if u :| u in us && u.address == a { assert u in init || u == last; }
        if u :| u in init && u.address == a { assert u in us; }
        assert last in us;
      }
    }
  }

  /** Two keys of these coins hash alike. */
  predicate KeysCollide(w: Wallet, us: seq<Utxo>) {
    exists u, v :: u in us && v in us && KeyOf(w, u) != KeyOf(w, v) && w.hash(KeyOf(w, u)) == w.hash(KeyOf(w, v))
  }

  /** There are never more signers than were reckoned with, unless two keys hash alike. */
  lemma {:induction false} KeysAtMostWitnesses(w: Wallet, us: seq<Utxo>)
    requires OwnsAll(w, us) && !KeysCollide(w, us)
    ensures |Keys(w, us)| <= Witnesses(us)
  {
    if us != [] {
      var init, last := us[..|us| - 1], us[|us| - 1];
      assert us == init + [last];
      KeysAtMostWitnesses(w, init);
      WitnessesNext(init, last);
      if u :| u in init && u.address == last.address {
        assert Owns(w, u) && Owns(w, last);
        assert KeyOf(w, u) == KeyOf(w, last);
      }
    }
  }

  /** A wallet with one key, which owns everything. */
  function OneKeyWallet(): Wallet {
    Wallet((path: string) => [], (address: string) => Some([]), (key: seq<byte>) => [])
  }
}
