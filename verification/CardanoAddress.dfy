/** Cardano addresses as text: bech32 of a header byte and hashes, on mainnet. */
module CardanoAddress {
  import opened Common
  import opened Bech32

  const MAINNET_ID := 1

  /** `address_bytes` */
  function AddressBytes(a: string): Result<seq<byte>, string> {
    var decoded := DecodeAs(a, 0);
    if decoded.Err? then Err(decoded.error)
    else
      DecodedReadsBack(a);
      var (hrp, data) := decoded.value;
      var raw: seq<byte> := data;
      if hrp != "addr" || raw == [] || raw[0] % 16 != MAINNET_ID then Err("not a mainnet Shelley address") else Ok(raw)
  }

  /** `address_string` */
  function AddressString(raw: seq<byte>): string {
    BechGood();
    VariantsDiffer();
    BECH.Encode("addr", raw, BECH.variants[0])
  }

  lemma DecodedReadsBack(a: string)
    requires DecodeAs(a, 0).Ok?
    ensures IsBytes(DecodeAs(a, 0).value.1)
    ensures DecodeAs(a, 0).value.0 == "addr" ==> AddressString(DecodeAs(a, 0).value.1) == a
  {
    BechGood();
    VariantsDiffer();
    BECH.EncodeDecode(a, BECH.variants[0]);
  }

  /** An accepted address reads back in the very spelling it was given. */
  lemma AddressReadsBack(a: string)
    requires AddressBytes(a).Ok?
    ensures AddressString(AddressBytes(a).value) == a
  {
    DecodedReadsBack(a);
  }

  /** Bytes with a mainnet header, and no others, are written to an address that is accepted and gives them back. */
  lemma BytesReadBack(raw: seq<byte>)
    ensures AddressBytes(AddressString(raw))
         == if raw == [] || raw[0] % 16 != MAINNET_ID then Err("not a mainnet Shelley address") else Ok(raw)
  {
    BechGood();
    VariantsDiffer();
    BECH.DecodeEncode("addr", raw, BECH.variants[0]);
  }
}
