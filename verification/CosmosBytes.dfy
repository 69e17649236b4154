/** Cosmos message bodies, byte for byte: which field each part is written under. */
module CosmosBytes {
  import opened Common
  import opened CosmosTx
  import opened Protobuf
  import Utf8

  /** A length-delimited field of number 1 to 15 and at most 127 bytes: a tag byte, a length byte, and the bytes. */
  lemma ShortField(field: nat, b: seq<byte>)
    requires 1 <= field < 16 && |b| < 128
    ensures Delimited(field, b) == [8 * field + 2, |b|] + b
  {
    assert Varint(8 * field + 2) == [8 * field + 2] && Varint(|b|) == [|b|];
  }

  /** 300 takes two bytes, the lower seven bits first. */
  lemma TwoByteVarint()
    ensures Varint(300) == [0xAC, 0x02]
  {
    assert Varint(2) == [2];
  }

  lemma ShortString(field: nat, s: string)
    requires 1 <= field < 16 && s != "" && |Utf8.Encode(s)| < 128
    ensures StringField(field, s) == [8 * field + 2, |Utf8.Encode(s)|] + Utf8.Encode(s)
  {
    ShortField(field, Utf8.Encode(s));
  }

  /** The parts of a split are the only ones there are. */
  lemma PartitionIs(s: string, c: char, a: string, b: string)
    requires c !in a && s == a + [c] + b
    ensures Partition(s, c) == (a, b)
  {
    var r := Partition(s, c);
    assert forall j :: 0 <= j < |a| ==> a[j] != c && s[j] == a[j];
    assert forall j :: 0 <= j < |r.0| ==> r.0[j] != c && s[j] == r.0[j];
    assert s[|a|] == c && c in s;
    assert s[|r.0|] == c;
    assert a == s[..|a|] && b == s[|a| + 1..] && r.0 == s[..|r.0|] && r.1 == s[|r.0| + 1..];
  }

  /** The sender, the recipient, and the one coin: its denomination and its amount. */
  lemma SendLayout(from: string, to: string, denom: string, amount: string)
    requires from != "" && to != "" && denom != "" && amount != ""
    requires |Utf8.Encode(from)| < 128 && |Utf8.Encode(to)| < 128
    requires |Utf8.Encode(denom)| + |Utf8.Encode(amount)| < 124
    ensures var f, t, d, a := Utf8.Encode(from), Utf8.Encode(to), Utf8.Encode(denom), Utf8.Encode(amount);
            MsgSend(from, to, denom, amount)
            == [0x0A, |f|] + f + ([0x12, |t|] + t)
               + ([0x1A, |d| + |a| + 4] + ([0x0A, |d|] + d + ([0x12, |a|] + a)))
  {
    ShortString(1, from);
    ShortString(2, to);
    ShortString(1, denom);
    ShortString(2, amount);
    ShortField(3, Coin(denom, amount));
  }

  lemma SplitAsset(asset: string, chain: string, symbol: string, ticker: string, contract: string)
    requires asset == chain + ['.'] + symbol && symbol == ticker + contract
    requires '.' !in chain && '-' !in ticker && (contract == [] || contract[0] == '-')
    ensures Partition(asset, '.') == (chain, symbol) && Partition(symbol, '-').0 == ticker
  {
    PartitionIs(asset, '.', chain, symbol);
    if contract != [] {
      assert symbol == ticker + ['-'] + contract[1..];
      PartitionIs(symbol, '-', ticker, contract[1..]);
    }
  }

  lemma ThreeStrings(chain: string, symbol: string, ticker: string)
    requires chain != "" && symbol != "" && ticker != ""
    requires |Utf8.Encode(chain)| < 128 && |Utf8.Encode(symbol)| < 128 && |Utf8.Encode(ticker)| < 128
    ensures var c, s, t := Utf8.Encode(chain), Utf8.Encode(symbol), Utf8.Encode(ticker);
            StringField(1, chain) + StringField(2, symbol) + StringField(3, ticker)
            == [0x0A, |c|] + c + ([0x12, |s|] + s) + ([0x1A, |t|] + t)
  {
    ShortString(1, chain);
    ShortString(2, symbol);
    ShortString(3, ticker);
  }

  /** A pool's asset, "CHAIN.TICKER" or "CHAIN.TICKER-CONTRACT": its chain, its symbol, and the ticker alone. */
  lemma AssetLayout(asset: string, chain: string, symbol: string, ticker: string, contract: string)
    requires asset == chain + ['.'] + symbol && symbol == ticker + contract && chain != "" && ticker != ""
    requires '.' !in chain && '-' !in ticker && (contract == [] || contract[0] == '-')
    requires |Utf8.Encode(chain)| < 128 && |Utf8.Encode(symbol)| < 128 && |Utf8.Encode(ticker)| < 128
    ensures var c, s, t := Utf8.Encode(chain), Utf8.Encode(symbol), Utf8.Encode(ticker);
            Asset(asset) == [0x0A, |c|] + c + ([0x12, |s|] + s) + ([0x1A, |t|] + t)
  {
    SplitAsset(asset, chain, symbol, ticker, contract);
    ThreeStrings(chain, symbol, ticker);
  }

  lemma CoinLayout(x: seq<byte>, amount: string)
    requires amount != "" && |x| + |Utf8.Encode(amount)| < 124
    ensures var a := Utf8.Encode(amount);
            Delimited(1, Delimited(1, x) + StringField(2, amount))
            == [0x0A, |x| + |a| + 4] + ([0x0A, |x|] + x + ([0x12, |a|] + a))
  {
    ShortField(1, x);
    ShortString(2, amount);
    ShortField(1, Delimited(1, x) + StringField(2, amount));
  }

  lemma AllOne<T>(enc: T -> seq<byte>, x: T)
    ensures All(enc, [x]) == enc(x)
  {
    assert [x][1..] == [] && enc(x) + [] == enc(x);
  }

  /** A deposit of one coin: the coin, the memo, the signer's account. */
  lemma DepositLayout(asset: string, amount: string, memo: string, signer: seq<byte>)
    requires amount != "" && memo != "" && |signer| < 128 && |Utf8.Encode(memo)| < 128
    requires |Asset(asset)| + |Utf8.Encode(amount)| < 124
    ensures var x, a, m := Asset(asset), Utf8.Encode(amount), Utf8.Encode(memo);
            MsgDeposit([(asset, amount)], memo, signer)
            == [0x0A, |x| + |a| + 4] + ([0x0A, |x|] + x + ([0x12, |a|] + a)) + ([0x12, |m|] + m)
               + ([0x1A, |signer|] + signer)
  {
    CoinLayout(Asset(asset), amount);
    ShortString(2, memo);
    ShortField(3, signer);
    AllOne(DepositCoinField, (asset, amount));
  }

  /** A body of one message: its type URL and its bytes, then the body's memo. */
  lemma BodyLayout(url: string, value: seq<byte>, memo: string)
    requires url != "" && memo != "" && |Utf8.Encode(memo)| < 128 && |Utf8.Encode(url)| + |value| < 124
    ensures var u, m := Utf8.Encode(url), Utf8.Encode(memo);
            TxBody([(url, value)], memo)
            == [0x0A, |u| + |value| + 4] + ([0x0A, |u|] + u + ([0x12, |value|] + value)) + ([0x12, |m|] + m)
  {
    var x: Message := (url, value);
    ShortString(1, url);
    ShortField(2, value);
    ShortField(1, AnyMsg(url, value));
    ShortString(2, memo);
    AllOne(MessageField, x);
  }
}
