/** CIP-20 memos: split into metadata strings of at most 64 bytes, never inside a character. */
module CardanoMemo {
  import opened Common
  import Cbor
  import Utf8

  type Item = Cbor.Item

  const METADATA_CHUNK := 64

  function Bytes(s: string): nat { |Utf8.Encode(s)| }

  /** Greedy splitting of `memo`, with `current` already collected. */
  function ChunksFrom(current: string, memo: string): (r: seq<string>)
    ensures r != []
    decreases |memo|
  {
    if memo == "" then [current]
    else if current != "" && Bytes(current + [memo[0]]) > METADATA_CHUNK then
      [current] + ChunksFrom([memo[0]], memo[1..])
    else ChunksFrom(current + [memo[0]], memo[1..])
  }

  function Chunks(memo: string): seq<string> { ChunksFrom("", memo) }

  function Joined(parts: seq<string>): string { if parts == [] then "" else parts[0] + Joined(parts[1..]) }

  /** `memo_chunks`. */
  method MemoChunks(memo: string) returns (chunks: seq<string>)
    ensures chunks == Chunks(memo)
  {
    chunks := [];
    var current: string := "";
    assert [] + Chunks(memo) == Chunks(memo) && memo[0..] == memo;
    for k := 0 to |memo|
      invariant Chunks(memo) == chunks + ChunksFrom(current, memo[k..])
    {
      var c := memo[k];
      assert memo[k..][0] == c && memo[k..][1..] == memo[k + 1..];
      if current != "" && Bytes(current + [c]) > METADATA_CHUNK {
        Assoc(chunks, [current], ChunksFrom([c], memo[k + 1..]));
        chunks := chunks + [current];
        current := "";
      }
      assert "" + [c] == [c];
      current := current + [c];
    }
    chunks := chunks + [current];
  }

  /** The chunks, in order, are the memo. */
  lemma {:induction false} ChunksLossless(current: string, memo: string)
    ensures Joined(ChunksFrom(current, memo)) == current + memo
    decreases |memo|
  {
    if memo == "" {
      assert [current][1..] == [];
    } else if current != "" && Bytes(current + [memo[0]]) > METADATA_CHUNK {
      ChunksLossless([memo[0]], memo[1..]);
      var rest := ChunksFrom([memo[0]], memo[1..]);
      assert ([current] + rest)[1..] == rest;
      assert [memo[0]] + memo[1..] == memo;
    } else {
      ChunksLossless(current + [memo[0]], memo[1..]);
      assert current + [memo[0]] + memo[1..] == current + memo;
    }
  }

  predicate Fit(parts: seq<string>) { forall k :: 0 <= k < |parts| ==> Bytes(parts[k]) <= METADATA_CHUNK }

  lemma OneCharFits(c: char)
    ensures Bytes([c]) <= 4
  {
    assert [c][1..] == "" && Utf8.Encode([c]) == Utf8.EncodeChar(c) + Utf8.Encode("");
  }

  /** Every chunk fits a metadata string. */
  lemma {:induction false} ChunksFit(current: string, memo: string)
    requires Bytes(current) <= METADATA_CHUNK
    ensures Fit(ChunksFrom(current, memo))
    decreases |memo|
  {
    if memo != "" {
      OneCharFits(memo[0]);
      assert "" + [memo[0]] == [memo[0]];
      if current != "" && Bytes(current + [memo[0]]) > METADATA_CHUNK {
        ChunksFit([memo[0]], memo[1..]);
      } else {
        ChunksFit(current + [memo[0]], memo[1..]);
      }
    }
  }

  lemma BytesOfPart(a: string, b: string, c: string)
    ensures Bytes(a + b + c) >= Bytes(b)
  {
    Utf8.EncodeConcat(a + b, c);
    Utf8.EncodeConcat(a, b);
  }

  /** A part that fits and starts no later than `current` cannot reach the character greedy cut before. */
  lemma PartEnds(early: string, current: string, c: char, rest: string, part: string)
    requires Bytes(current + [c]) > METADATA_CHUNK >= Bytes(part) && part <= early + current + ([c] + rest)
    ensures |part| <= |early + current|
  {
    var k := |early + current|;
    if |part| > k {
      assert part == early + (current + [c]) + part[k + 1..];
      BytesOfPart(early, current + [c], part[k + 1..]);
    }
  }

  /** Greedy stays ahead: a split that starts its first part earlier needs at least as many parts. */
  lemma {:induction false} GreedyStaysAhead(early: string, current: string, memo: string, parts: seq<string>)
    requires parts != [] && Fit(parts) && Joined(parts) == early + current + memo
    ensures |ChunksFrom(current, memo)| <= |parts|
    decreases |memo|
  {
    if memo != "" {
      var c, rest := memo[0], memo[1..];
      var whole := early + current + memo;
      if current != "" && Bytes(current + [c]) > METADATA_CHUNK {
        var n := |parts[0]|;
        var done := early + current;
        assert parts[0] == whole[..n] && memo == [c] + rest;
        PartEnds(early, current, c, rest, parts[0]);
        assert Joined(parts[1..]) == whole[n..] == done[n..] + [c] + rest;
        assert parts[1..] != [];
        GreedyStaysAhead(done[n..], [c], rest, parts[1..]);
      } else {
        assert whole == early + (current + [c]) + rest;
        GreedyStaysAhead(early, current + [c], rest, parts);
      }
    }
  }

  /**
   * `memo_chunks` loses nothing, keeps every chunk within 64 bytes of UTF-8, and
   * uses the fewest chunks any split of the memo's characters could. An empty
   * memo is one empty chunk.
   */
  lemma ChunksOptimal(memo: string)
    ensures Joined(Chunks(memo)) == memo && Fit(Chunks(memo))
    ensures forall parts: seq<string> :: Fit(parts) && Joined(parts) == memo && parts != [] ==>
              |Chunks(memo)| <= |parts|
  {
    ChunksLossless("", memo);
    assert "" + memo == memo;
    ChunksFit("", memo);
    forall parts: seq<string> | Fit(parts) && Joined(parts) == memo && parts != []
      ensures |Chunks(memo)| <= |parts|
    {
      assert "" + "" + memo == memo;
      GreedyStaysAhead("", "", memo, parts);
    }
  }

  // --- metadata -------------------------------------------------------------

  const CIP20_LABEL := 674

  function Texts(parts: seq<string>): seq<Item> {
    if parts == [] then [] else [Cbor.Text(parts[0])] + Texts(parts[1..])
  }

  /** `metadata_for_memo` */
  function MetadataForMemo(memo: string): Item {
    Cbor.Map([Cbor.Int(CIP20_LABEL), Cbor.Map([Cbor.Text("msg"), Cbor.List(Texts(Chunks(memo)))])])
  }

  /** What a dictionary of these keys and values in turn has under a key: the last value given for it. */
  function Get(entries: seq<Item>, key: Item): Option<Item> {
    if |entries| < 2 then None
    else
      var later := Get(entries[2..], key);
      if later.Some? then later else if entries[0] == key then Some(entries[1]) else None
  }

  /** `"".join(...)`, which refuses anything that is not text. */
  function JoinTexts(items: seq<Item>): Result<string, string> {
    if items == [] then Ok("")
    else if !items[0].Text? then Err("expected str instance")
    else
      var rest :- JoinTexts(items[1..]);
      Ok(items[0].text + rest)
  }

  /** `memo_from_metadata` */
  function MemoFromMetadata(metadata: Item): Result<Option<seq<byte>>, string> {
    var message := if metadata.Map? then Get(metadata.entries, Cbor.Int(CIP20_LABEL)) else None;
    if message.None? || !message.value.Map? then Ok(None)
    else
      var chunks := Get(message.value.entries, Cbor.Text("msg"));
      if chunks.None? || !chunks.value.List? then Ok(None)
      else
        var text :- JoinTexts(chunks.value.items);
        Ok(Some(Utf8.Encode(text)))
  }

  lemma OneEntry(key: Item, value: Item)
    ensures Get([key, value], key) == Some(value)
  {
    assert [key, value][2..] == [];
  }

  lemma {:induction false} JoinOfTexts(parts: seq<string>)
    ensures JoinTexts(Texts(parts)) == Ok(Joined(parts))
  {
    if parts != [] {
      JoinOfTexts(parts[1..]);
      assert Texts(parts)[1..] == Texts(parts[1..]);
    }
  }

  /** Reading the metadata written for a memo gives the memo's bytes back, and they decode to the memo. */
  lemma MemoRoundTrip(memo: string)
    ensures MemoFromMetadata(MetadataForMemo(memo)) == Ok(Some(Utf8.Encode(memo)))
    ensures Utf8.Decode(MemoFromMetadata(MetadataForMemo(memo)).value.value) == Some(memo)
  {
    var chunks := Cbor.List(Texts(Chunks(memo)));
    OneEntry(Cbor.Text("msg"), chunks);
    OneEntry(Cbor.Int(CIP20_LABEL), Cbor.Map([Cbor.Text("msg"), chunks]));
    JoinOfTexts(Chunks(memo));
    ChunksOptimal(memo);
    Utf8.DecodeOfEncode(memo);
  }
}
