/** Cosmos messages: building a MsgSend or MsgDeposit transaction body, and decoding it for the gate. */
module CosmosTx {
  import opened Common
  import opened Protobuf
  import Utf8

  // --- builders -------------------------------------------------------------

  function StringField(field: nat, value: string): seq<byte> {
    if value != "" then Delimited(field, Utf8.Encode(value)) else []
  }

  function Coin(denom: string, amount: string): seq<byte> { StringField(1, denom) + StringField(2, amount) }

  function AnyMsg(url: string, value: seq<byte>): seq<byte> { StringField(1, url) + Delimited(2, value) }

  function MsgSend(from: string, to: string, denom: string, amount: string): seq<byte> {
    StringField(1, from) + StringField(2, to) + Delimited(3, Coin(denom, amount))
  }

  /** Python's `s.partition(c)`: what comes before the first `c`, and what comes after it. */
  function Partition(s: string, c: char): (r: (string, string))
    ensures c !in r.0
    ensures c in s ==> s == r.0 + [c] + r.1
    ensures c !in s ==> r == (s, "")
  {
    if s == "" then ("", "")
    else if s[0] == c then ("", s[1..])
    else
      var rest := Partition(s[1..], c);
      assert s == [s[0]] + s[1..];
      ([s[0]] + rest.0, rest.1)
  }

  function Asset(asset: string): seq<byte> {
    var (chain, symbol) := Partition(asset, '.');
    StringField(1, chain) + StringField(2, symbol) + StringField(3, Partition(symbol, '-').0)
  }

  /** A coin of a deposit: its asset and its amount. */
  type Amount = (string, string)

  function DepositCoin(c: Amount): seq<byte> { Delimited(1, Asset(c.0)) + StringField(2, c.1) }

  function DepositCoinField(c: Amount): seq<byte> { Delimited(1, DepositCoin(c)) }

  function MsgDeposit(coins: seq<Amount>, memo: string, signer: seq<byte>): seq<byte> {
    All(DepositCoinField, coins) + StringField(2, memo) + Delimited(3, signer)
  }

  /** `msg_deposit`. */
  method BuildMsgDeposit(coins: seq<Amount>, memo: string, signer: seq<byte>) returns (r: seq<byte>)
    ensures r == MsgDeposit(coins, memo, signer)
  {
    var out: seq<byte> := [];
    for k := 0 to |coins|
      invariant out == [] + All(DepositCoinField, coins[..k])
    {
      AllNext(DepositCoinField, coins, k, []);
      out := out + DepositCoinField(coins[k]);
    }
    assert coins[..|coins|] == coins && [] + All(DepositCoinField, coins) == All(DepositCoinField, coins);
    return out + StringField(2, memo) + Delimited(3, signer);
  }

  /** A message: its type URL and its bytes. */
  type Message = (string, seq<byte>)

  function MessageField(m: Message): seq<byte> { Delimited(1, AnyMsg(m.0, m.1)) }

  function TxBody(messages: seq<Message>, memo: string): seq<byte> {
    All(MessageField, messages) + StringField(2, memo)
  }

  // --- decoders -------------------------------------------------------------

  function First(d: Dict, n: nat): Result<Value, string> {
    if n in d && d[n] != [] then Ok(d[n][0]) else Err("missing field")
  }

  function Text(v: Value): Result<string, string> {
    if v.Int? || Utf8.Decode(v.b).None? then Err("not text") else Ok(Utf8.Decode(v.b).value)
  }

  function FirstText(d: Dict, n: nat): Result<string, string> {
    var v :- First(d, n);
    Text(v)
  }

  /** `d.get(n, [b""])[0].decode()` */
  function TextOrEmpty(d: Dict, n: nat): Result<string, string> {
    if n in d then FirstText(d, n) else Ok("")
  }

  function Fields(v: Value): Result<Dict, string> {
    if v.Int? then Err("not a message") else ReadDict(v.b)
  }

  function FirstFields(d: Dict, n: nat): Result<Dict, string> {
    var v :- First(d, n);
    Fields(v)
  }

  /** The message inside the body, with its type URL and the body's own memo. */
  function DecodeEnvelope(bytes: seq<byte>): Result<(string, string, Dict), string> {
    var body :- ReadDict(bytes);
    var memo :- TextOrEmpty(body, 2);
    var anyMsg :- FirstFields(body, 1);
    var url :- FirstText(anyMsg, 1);
    var msg :- FirstFields(anyMsg, 2);
    Ok((memo, url, msg))
  }

  datatype SendView = SendView(url: string, from: string, to: string, denom: string, amount: string, memo: string)

  /** `decode_msg_send_body`. */
  function DecodeSend(bytes: seq<byte>): Result<SendView, string> {
    var (memo, url, msg) :- DecodeEnvelope(bytes);
    var coin :- FirstFields(msg, 3);
    var from :- FirstText(msg, 1);
    var to :- FirstText(msg, 2);
    var denom :- FirstText(coin, 1);
    var amount :- FirstText(coin, 2);
    Ok(SendView(url, from, to, denom, amount, memo))
  }

  function DecodeCoin(v: Value): Result<Amount, string> {
    var coin :- Fields(v);
    var asset :- FirstFields(coin, 1);
    var chain :- FirstText(asset, 1);
    var symbol :- FirstText(asset, 2);
    var amount :- FirstText(coin, 2);
    Ok((chain + "." + symbol, amount))
  }

  function DecodeCoins(vs: seq<Value>): Result<seq<Amount>, string> {
    if vs == [] then Ok([])
    else
      var coin :- DecodeCoin(vs[0]);
      var rest :- DecodeCoins(vs[1..]);
      Ok([coin] + rest)
  }

  datatype DepositView = DepositView(url: string, coins: seq<Amount>, memo: string, signer: Value, outerMemo: string)

  function DecodeDeposit(bytes: seq<byte>): Result<DepositView, string> {
    var (outerMemo, url, msg) :- DecodeEnvelope(bytes);
    var coins :- DecodeCoins(if 1 in msg then msg[1] else []);
    var memo :- TextOrEmpty(msg, 2);
    Ok(DepositView(url, coins, memo, if 3 in msg && msg[3] != [] then msg[3][0] else Bytes([]), outerMemo))
  }

  function CoinsAfter(coins: seq<Amount>, r: Result<seq<Amount>, string>): Result<seq<Amount>, string> {
    if r.Err? then r else Ok(coins + r.value)
  }

  lemma CoinsAfterOne(coins: seq<Amount>, c: Amount, r: Result<seq<Amount>, string>)
    ensures CoinsAfter(coins, CoinsAfter([c], r)) == CoinsAfter(coins + [c], r)
    ensures CoinsAfter([], r) == r
  {
    if r.Ok? {
      assert coins + ([c] + r.value) == coins + [c] + r.value;
      assert [] + r.value == r.value;
    }
  }

  /** `decode_msg_deposit_body`. */
  method DecodeDepositBody(bytes: seq<byte>) returns (r: Result<DepositView, string>)
    ensures r == DecodeDeposit(bytes)
  {
    var envelope := DecodeEnvelope(bytes);
    if envelope.Err? {
      return Err(envelope.error);
    }
    var (outerMemo, url, msg) := envelope.value;
    var vs := if 1 in msg then msg[1] else [];
    var coins: seq<Amount> := [];
    CoinsAfterOne([], ("", ""), DecodeCoins(vs));
    for k := 0 to |vs|
      invariant DecodeCoins(vs) == CoinsAfter(coins, DecodeCoins(vs[k..]))
    {
      var coin := DecodeCoin(vs[k]);
      if coin.Err? {
        return Err(coin.error);
      }
      assert vs[k..][1..] == vs[k + 1..];
      CoinsAfterOne(coins, coin.value, DecodeCoins(vs[k + 1..]));
      coins := coins + [coin.value];
    }
    assert coins + [] == coins;
    var memo := TextOrEmpty(msg, 2);
    if memo.Err? {
      return Err(memo.error);
    }
    var signer := if 3 in msg && msg[3] != [] then msg[3][0] else Bytes([]);
    return Ok(DepositView(url, coins, memo.value, signer, outerMemo));
  }

  // --- decoding what was built ----------------------------------------------

  /** The fields a possibly empty string makes. */
  function StringFields(field: nat, value: string): seq<Field> {
    if value == "" then [] else [Field(field, Bytes(Utf8.Encode(value)))]
  }

  /** Reading back a string that must be there. */
  function Present(value: string): Result<string, string> {
    if value == "" then Err("missing field") else Ok(value)
  }

  lemma WireOne(field: nat, b: seq<byte>)
    ensures WireAll([Field(field, Bytes(b))]) == Delimited(field, b)
  {
    var f := Field(field, Bytes(b));
    AllAppend(Wire, [], f);
    assert [] + [f] == [f] && [] + Delimited(field, b) == Delimited(field, b);
  }

  lemma WireString(field: nat, value: string)
    ensures WireAll(StringFields(field, value)) == StringField(field, value)
  {
    if value != "" { WireOne(field, Utf8.Encode(value)); }
  }

  lemma ValuesOne(field: nat, v: Value, n: nat)
    ensures Values([Field(field, v)], n) == if n == field then [v] else []
  {
    assert [Field(field, v)][1..] == [];
  }

  /** `d` holds a possibly empty string under `n`. */
  ghost predicate HoldsText(d: Dict, n: nat, value: string) {
    FirstText(d, n) == Present(value) && TextOrEmpty(d, n) == Ok(value)
  }

  lemma TextHeld(fs: seq<Field>, n: nat, value: string)
    requires Values(fs, n) == Values(StringFields(n, value), n)
    ensures HoldsText(Dictionary(fs), n, value)
  {
    DictionaryHolds(fs, n);
    if value != "" {
      ValuesOne(n, Bytes(Utf8.Encode(value)), n);
      Utf8.DecodeOfEncode(value);
    }
  }

  lemma ValuesOfString(field: nat, value: string, n: nat)
    requires n != field
    ensures Values(StringFields(field, value), n) == []
  {
    if value != "" { ValuesOne(field, Bytes(Utf8.Encode(value)), n); }
  }

  /** Two strings and then anything under a third number. */
  lemma ReadStrings(m: string, n: string, more: seq<Field>) returns (d: Dict)
    requires Values(more, 1) == [] && Values(more, 2) == []
    ensures ReadDict(StringField(1, m) + StringField(2, n) + WireAll(more)) == Ok(d)
    ensures HoldsText(d, 1, m) && HoldsText(d, 2, n)
    ensures Values(more, 3) != [] ==> First(d, 3) == Ok(Values(more, 3)[0])
  {
    var a, b := StringFields(1, m), StringFields(2, n);
    var fs := a + b + more;
    WireString(1, m);
    WireString(2, n);
    AllConcat(Wire, a, b);
    AllConcat(Wire, a + b, more);
    ReadOfWireAll(fs);
    d := Dictionary(fs);
    forall k ensures Values(fs, k) == Values(a, k) + Values(b, k) + Values(more, k) {
      ValuesConcat(a, b, k);
      ValuesConcat(a + b, more, k);
    }
    ValuesOfString(1, m, 2);
    ValuesOfString(2, n, 1);
    ValuesOfString(1, m, 3);
    ValuesOfString(2, n, 3);
    TextHeld(fs, 1, m);
    TextHeld(fs, 2, n);
    DictionaryHolds(fs, 3);
  }

  /** The fields of a repeated sub-message. */
  function Repeated<T>(field: nat, enc: T -> seq<byte>, xs: seq<T>): seq<Field> {
    if xs == [] then [] else [Field(field, Bytes(enc(xs[0])))] + Repeated(field, enc, xs[1..])
  }

  function Encoded<T>(enc: T -> seq<byte>, xs: seq<T>): seq<Value> {
    if xs == [] then [] else [Bytes(enc(xs[0]))] + Encoded(enc, xs[1..])
  }

  lemma {:induction false} RepeatedFields<T(!new)>(field: nat, enc: T -> seq<byte>, whole: T -> seq<byte>, xs: seq<T>,
                                                   n: nat)
    requires forall x :: whole(x) == Delimited(field, enc(x))
    ensures WireAll(Repeated(field, enc, xs)) == All(whole, xs)
    ensures Values(Repeated(field, enc, xs), n) == if n == field then Encoded(enc, xs) else []
  {
    if xs != [] {
      RepeatedFields(field, enc, whole, xs[1..], n);
      var f := Field(field, Bytes(enc(xs[0])));
      assert ([f] + Repeated(field, enc, xs[1..]))[1..] == Repeated(field, enc, xs[1..]);
      assert whole(xs[0]) == Wire(f);
    }
  }

  // --- the send round trip --------------------------------------------------

  function AnyOf(m: Message): seq<byte> { AnyMsg(m.0, m.1) }

  lemma ReadAny(url: string, value: seq<byte>) returns (d: Dict)
    ensures ReadDict(AnyMsg(url, value)) == Ok(d) && HoldsText(d, 1, url) && First(d, 2) == Ok(Bytes(value))
  {
    var a, b := StringFields(1, url), [Field(2, Bytes(value))];
    var fs := a + b;
    WireString(1, url);
    WireOne(2, value);
    AllConcat(Wire, a, b);
    ReadOfWireAll(fs);
    d := Dictionary(fs);
    ValuesConcat(a, b, 1);
    ValuesConcat(a, b, 2);
    ValuesOne(2, Bytes(value), 1);
    ValuesOne(2, Bytes(value), 2);
    ValuesOfString(1, url, 2);
    TextHeld(fs, 1, url);
    DictionaryHolds(fs, 2);
  }

  /** The envelope gives back the first message and the memo, if the type URL is there. */
  lemma ReadEnvelope(messages: seq<Message>, memo: string, msg: Dict)
    requires messages != [] && ReadDict(messages[0].1) == Ok(msg)
    ensures DecodeEnvelope(TxBody(messages, memo))
         == if messages[0].0 == "" then Err("missing field") else Ok((memo, messages[0].0, msg))
  {
    var (url, value) := messages[0];
    var a, b := Repeated(1, AnyOf, messages), StringFields(2, memo);
    var fs := a + b;
    RepeatedFields(1, AnyOf, MessageField, messages, 1);
    RepeatedFields(1, AnyOf, MessageField, messages, 2);
    WireString(2, memo);
    AllConcat(Wire, a, b);
    ReadOfWireAll(fs);
    ValuesConcat(a, b, 1);
    ValuesConcat(a, b, 2);
    ValuesOfString(2, memo, 1);
    TextHeld(fs, 2, memo);
    DictionaryHolds(fs, 1);
    var body := Dictionary(fs);
    var anyMsg := ReadAny(url, value);
    assert First(body, 1) == Ok(Bytes(AnyMsg(url, value)));
    assert FirstFields(body, 1) == Ok(anyMsg);
  }

  lemma ReadCoin(denom: string, amount: string) returns (d: Dict)
    ensures ReadDict(Coin(denom, amount)) == Ok(d) && HoldsText(d, 1, denom) && HoldsText(d, 2, amount)
  {
    d := ReadStrings(denom, amount, []);
    assert Coin(denom, amount) + [] == Coin(denom, amount);
  }

  lemma ReadSend(from: string, to: string, denom: string, amount: string) returns (d: Dict)
    ensures ReadDict(MsgSend(from, to, denom, amount)) == Ok(d) && HoldsText(d, 1, from) && HoldsText(d, 2, to)
    ensures First(d, 3) == Ok(Bytes(Coin(denom, amount)))
  {
    var coin := Bytes(Coin(denom, amount));
    forall n ensures Values([Field(3, coin)], n) == if n == 3 then [coin] else [] { ValuesOne(3, coin, n); }
    WireOne(3, Coin(denom, amount));
    d := ReadStrings(from, to, [Field(3, coin)]);
  }

  /**
   * A built MsgSend body decodes to exactly what was put in when no field but
   * the memo is empty, and is refused otherwise.
   */
  lemma SendRoundTrip(url: string, from: string, to: string, denom: string, amount: string, memo: string,
                      more: seq<Message>)
    ensures var body := TxBody([(url, MsgSend(from, to, denom, amount))] + more, memo);
            if url != "" && from != "" && to != "" && denom != "" && amount != ""
            then DecodeSend(body) == Ok(SendView(url, from, to, denom, amount, memo))
            else DecodeSend(body).Err?
  {
    var msg := ReadSend(from, to, denom, amount);
    var coin := ReadCoin(denom, amount);
    ReadEnvelope([(url, MsgSend(from, to, denom, amount))] + more, memo, msg);
    assert FirstFields(msg, 3) == Ok(coin);
  }

  // --- the deposit round trip -----------------------------------------------

  /** A coin the decoder gives back: something before the first dot, something after it, and an amount. */
  predicate GoodCoin(c: Amount) {
    Partition(c.0, '.').0 != "" && Partition(c.0, '.').1 != "" && c.1 != ""
  }

  predicate GoodCoins(coins: seq<Amount>) { coins == [] || (GoodCoin(coins[0]) && GoodCoins(coins[1..])) }

  lemma ReadAsset(asset: string) returns (d: Dict)
    ensures ReadDict(Asset(asset)) == Ok(d)
    ensures HoldsText(d, 1, Partition(asset, '.').0) && HoldsText(d, 2, Partition(asset, '.').1)
  {
    var (chain, symbol) := Partition(asset, '.');
    var ticker := Partition(symbol, '-').0;
    WireString(3, ticker);
    ValuesOfString(3, ticker, 1);
    ValuesOfString(3, ticker, 2);
    d := ReadStrings(chain, symbol, StringFields(3, ticker));
  }

  lemma ReadDepositCoin(c: Amount) returns (d: Dict)
    ensures ReadDict(DepositCoin(c)) == Ok(d) && First(d, 1) == Ok(Bytes(Asset(c.0))) && HoldsText(d, 2, c.1)
  {
    var v := Bytes(Asset(c.0));
    var a, b := [Field(1, v)], StringFields(2, c.1);
    WireOne(1, Asset(c.0));
    WireString(2, c.1);
    AllConcat(Wire, a, b);
    ReadOfWireAll(a + b);
    d := Dictionary(a + b);
    ValuesConcat(a, b, 1);
    ValuesConcat(a, b, 2);
    ValuesOne(1, v, 1);
    ValuesOne(1, v, 2);
    ValuesOfString(2, c.1, 1);
    TextHeld(a + b, 2, c.1);
    DictionaryHolds(a + b, 1);
  }

  lemma CoinRoundTrip(c: Amount)
    ensures if GoodCoin(c) then DecodeCoin(Bytes(DepositCoin(c))) == Ok(c) else DecodeCoin(Bytes(DepositCoin(c))).Err?
  {
    var coin := ReadDepositCoin(c);
    var asset := ReadAsset(c.0);
    assert FirstFields(coin, 1) == Ok(asset);
    var (chain, symbol) := Partition(c.0, '.');
    assert GoodCoin(c) ==> c.0 == chain + "." + symbol;
  }

  lemma {:induction false} CoinsRoundTrip(coins: seq<Amount>)
    ensures var r := DecodeCoins(Encoded(DepositCoin, coins));
            if GoodCoins(coins) then r == Ok(coins) else r.Err?
  {
    if coins != [] {
      CoinRoundTrip(coins[0]);
      CoinsRoundTrip(coins[1..]);
      DecodeCoinsStep(Bytes(DepositCoin(coins[0])), Encoded(DepositCoin, coins[1..]));
      FirstAndRest(coins);
    }
  }

  lemma FirstAndRest<T>(xs: seq<T>)
    requires xs != []
    ensures [xs[0]] + xs[1..] == xs
  {
  }

  lemma DecodeCoinsStep(v: Value, vs: seq<Value>)
    ensures var first, rest, r := DecodeCoin(v), DecodeCoins(vs), DecodeCoins([v] + vs);
            if first.Ok? && rest.Ok? then r == Ok([first.value] + rest.value) else r.Err?
  {
    assert ([v] + vs)[1..] == vs;
  }

  function DepositFields(coins: seq<Amount>, memo: string, signer: seq<byte>): seq<Field> {
    Repeated(1, DepositCoin, coins) + StringFields(2, memo) + [Field(3, Bytes(signer))]
  }

  lemma DepositWire(coins: seq<Amount>, memo: string, signer: seq<byte>)
    ensures WireAll(DepositFields(coins, memo, signer)) == MsgDeposit(coins, memo, signer)
  {
    var a, b, c := Repeated(1, DepositCoin, coins), StringFields(2, memo), [Field(3, Bytes(signer))];
    RepeatedFields(1, DepositCoin, DepositCoinField, coins, 1);
    WireString(2, memo);
    WireOne(3, signer);
    AllConcat(Wire, a, b);
    AllConcat(Wire, a + b, c);
  }

  lemma DepositValues(coins: seq<Amount>, memo: string, signer: seq<byte>, n: nat)
    ensures var vs := Values(DepositFields(coins, memo, signer), n);
            && (n == 1 ==> vs == Encoded(DepositCoin, coins))
            && (n == 2 ==> vs == Values(StringFields(2, memo), 2))
            && (n == 3 ==> vs == [Bytes(signer)])
  {
    var a, b, c := Repeated(1, DepositCoin, coins), StringFields(2, memo), [Field(3, Bytes(signer))];
    RepeatedFields(1, DepositCoin, DepositCoinField, coins, n);
    ValuesConcat(a, b, n);
    ValuesConcat(a + b, c, n);
    ValuesOne(3, Bytes(signer), n);
    if n != 2 { ValuesOfString(2, memo, n); }
  }

  lemma ReadDeposit(coins: seq<Amount>, memo: string, signer: seq<byte>) returns (d: Dict)
    ensures ReadDict(MsgDeposit(coins, memo, signer)) == Ok(d)
    ensures (if 1 in d then d[1] else []) == Encoded(DepositCoin, coins)
    ensures HoldsText(d, 2, memo) && First(d, 3) == Ok(Bytes(signer))
  {
    var fs := DepositFields(coins, memo, signer);
    DepositWire(coins, memo, signer);
    ReadOfWireAll(fs);
    DepositValues(coins, memo, signer, 1);
    DepositValues(coins, memo, signer, 2);
    DepositValues(coins, memo, signer, 3);
    TextHeld(fs, 2, memo);
    DictionaryHolds(fs, 1);
    DictionaryHolds(fs, 3);
    d := Dictionary(fs);
  }

  /**
   * A built MsgDeposit body decodes to exactly what was put in, for any coins,
   * memos and signer, when there is a type URL and every coin has a chain, a
   * symbol and an amount; otherwise it is refused.
   */
  lemma DepositRoundTrip(url: string, coins: seq<Amount>, memo: string, signer: seq<byte>, outerMemo: string,
                         more: seq<Message>)
    ensures var body := TxBody([(url, MsgDeposit(coins, memo, signer))] + more, outerMemo);
            if url != "" && GoodCoins(coins)
            then DecodeDeposit(body) == Ok(DepositView(url, coins, memo, Bytes(signer), outerMemo))
            else DecodeDeposit(body).Err?
  {
    var msg := ReadDeposit(coins, memo, signer);
    ReadEnvelope([(url, MsgDeposit(coins, memo, signer))] + more, outerMemo, msg);
    CoinsRoundTrip(coins);
  }
}
