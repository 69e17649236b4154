/** BIP32-Ed25519 keys: the Icarus root, children along a path, and how large the scalar can get. */
module CardanoKeys {
  import opened Common
  import opened LittleEndian

  const HARDENED := 0x8000_0000
  const MAX_INDEX := 0xFFFF_FFFF
  const TWO_224: nat := 0x1_0000_0000_0000_0000_0000_0000_0000_0000_0000_0000_0000_0000_0000_0000
  const TWO_227: nat := 0x8_0000_0000_0000_0000_0000_0000_0000_0000_0000_0000_0000_0000_0000_0000
  const TWO_248: nat := 0x100_0000_0000_0000_0000_0000_0000_0000_0000_0000_0000_0000_0000_0000_0000_0000
  const TWO_254: nat := 0x4000_0000_0000_0000_0000_0000_0000_0000_0000_0000_0000_0000_0000_0000_0000_0000
  const TWO_256: nat := 0x1_0000_0000_0000_0000_0000_0000_0000_0000_0000_0000_0000_0000_0000_0000_0000_0000

  datatype ExtendedKey = ExtendedKey(kl: seq<byte>, kr: seq<byte>, chainCode: seq<byte>)

  /** HMAC-SHA512 of a key and a message, and the public key of a scalar, which a zero scalar does not have. */
  datatype Primitives = Primitives(hmac: (seq<byte>, seq<byte>) -> seq<byte>, publicKey: seq<byte> -> Option<seq<byte>>)

  ghost predicate Is512(c: Primitives) { forall k, m :: |c.hmac(k, m)| == 64 }

  predicate WellSized(k: ExtendedKey) { |k.kl| == 32 && |k.kr| == 32 && |k.chainCode| == 32 }

  // --- the root -------------------------------------------------------------

  /** The PBKDF2 output with the three lowest bits and the three highest of the scalar set. */
  function Clamped(data: seq<byte>): (r: seq<byte>)
    requires |data| == 96
    ensures |r| == 96
  {
    data[0 := data[0] - data[0] % 8][31 := data[31] % 32 + 64]
  }

  function RootOf(data: seq<byte>): (k: ExtendedKey)
    requires |data| == 96
    ensures WellSized(k)
  {
    var d := Clamped(data);
    ExtendedKey(d[..32], d[32..64], d[64..])
  }

  /** `root_key`, given the 96 bytes PBKDF2 makes of the words and the passphrase. */
  method RootKey(data: array<byte>) returns (k: ExtendedKey)
    requires data.Length == 96
    modifies data
    ensures data[..] == Clamped(old(data[..]))
    ensures k == RootOf(old(data[..]))
  {
    data[0] := data[0] - data[0] % 8;
    data[31] := data[31] % 32;
    data[31] := data[31] + 64;
    k := ExtendedKey(data[..32], data[32..64], data[64..]);
  }

  /** The scalar is clamped; the right half and the chain code are the bytes as they come. */
  lemma RootMeans(data: seq<byte>)
    requires |data| == 96
    ensures var k := RootOf(data);
            && k.kl[0] == data[0] - data[0] % 8 && k.kl[1..31] == data[1..31] && k.kl[31] == data[31] % 32 + 64
            && k.kr == data[32..64] && k.chainCode == data[64..96]
  {
    var d := Clamped(data);
    assert RootOf(data).kl[1..31] == d[..32][1..31] == data[1..31];
    assert d[32..64] == data[32..64] && d[64..] == data[64..96];
  }

  // --- children -------------------------------------------------------------

  datatype KeyError = BadIndex | ZeroScalar | Overflow

  /** What the two hashes of a child are taken over, after their leading byte. */
  function ChildData(c: Primitives, k: ExtendedKey, index: int): Result<(byte, byte, seq<byte>), KeyError> {
    if index < 0 || index > MAX_INDEX then Err(BadIndex)
    else if index >= HARDENED then Ok((0, 1, k.kl + k.kr + Le(index, 4)))
    else
      var public := c.publicKey(k.kl);
      if public.None? then Err(ZeroScalar) else Ok((2, 3, public.value + Le(index, 4)))
  }

  /** `ExtendedKey.child` */
  function Child(c: Primitives, k: ExtendedKey, index: int): (r: Result<ExtendedKey, KeyError>)
    requires Is512(c) && WellSized(k)
    ensures r.Ok? ==> WellSized(r.value)
  {
    var data := ChildData(c, k, index);
    if data.Err? then Err(data.error)
    else
      var z := c.hmac(k.chainCode, [data.value.0] + data.value.2);
      var cc := c.hmac(k.chainCode, [data.value.1] + data.value.2);
      var kl := 8 * FromLe(z[..28]) + FromLe(k.kl);
      if kl >= TWO_256 then Err(Overflow)
      else Ok(ExtendedKey(Le(kl, 32), Le((FromLe(z[32..]) + FromLe(k.kr)) % TWO_256, 32), cc[32..]))
  }

  /** A 32-bit index, the lowest byte first. */
  function IndexBytes(index: nat): seq<byte> {
    [index % 256, index / 256 % 256, index / 256 / 256 % 256, index / 256 / 256 / 256 % 256]
  }

  /**
   * A hardened child is made from the private key under 0 and 1, a soft one from
   * the public key under 2 and 3: eight times the first 28 bytes of one hash go
   * on the scalar, its right half on the right half, and the right half of the
   * other is the chain code.
   */
  lemma ChildMeans(c: Primitives, k: ExtendedKey, index: int)
    requires Is512(c) && WellSized(k) && Child(c, k, index).Ok?
    ensures 0 <= index < 0x1_0000_0000 && (index < 0x8000_0000 ==> c.publicKey(k.kl).Some?)
    ensures var child, i := Child(c, k, index).value, IndexBytes(index);
            var z := if index >= 0x8000_0000 then c.hmac(k.chainCode, [0] + (k.kl + k.kr + i))
                     else c.hmac(k.chainCode, [2] + (c.publicKey(k.kl).value + i));
            var cc := if index >= 0x8000_0000 then c.hmac(k.chainCode, [1] + (k.kl + k.kr + i))
                      else c.hmac(k.chainCode, [3] + (c.publicKey(k.kl).value + i));
            && FromLe(child.kl) == FromLe(k.kl) + 8 * FromLe(z[..28])
            && FromLe(child.kr) == (FromLe(k.kr) + FromLe(z[32..])) % TWO_256
            && child.chainCode == cc[32..]
  {
    LeFour(index);
    var (lead, follow, body) := ChildData(c, k, index).value;
    ChildParts(c, k, index, lead, follow, body);
  }

  /** A child by the two hashes it is made of. */
  lemma ChildParts(c: Primitives, k: ExtendedKey, index: int, lead: byte, follow: byte, body: seq<byte>)
    requires Is512(c) && WellSized(k) && ChildData(c, k, index) == Ok((lead, follow, body))
    ensures var z, cc := c.hmac(k.chainCode, [lead] + body), c.hmac(k.chainCode, [follow] + body);
            var kl := FromLe(k.kl) + 8 * FromLe(z[..28]);
            && (Child(c, k, index) == Err(Overflow) <==> kl >= TWO_256)
            && (Child(c, k, index).Ok? <==> kl < TWO_256)
            && (kl < TWO_256 ==>
                  && FromLe(Child(c, k, index).value.kl) == kl
                  && FromLe(Child(c, k, index).value.kr) == (FromLe(k.kr) + FromLe(z[32..])) % TWO_256
                  && Child(c, k, index).value.chainCode == cc[32..])
  {
    var z := c.hmac(k.chainCode, [lead] + body);
    var kl, kr := 8 * FromLe(z[..28]) + FromLe(k.kl), (FromLe(z[32..]) + FromLe(k.kr)) % TWO_256;
    ChildIs(c, k, index, lead, follow, body, kl, kr);
    if kl < TWO_256 {
      ReadBack32(kl);
      ReadBack32(kr);
    }
  }

  lemma ChildIs(c: Primitives, k: ExtendedKey, index: int, lead: byte, follow: byte, body: seq<byte>, kl: nat, kr: nat)
    requires Is512(c) && WellSized(k) && ChildData(c, k, index) == Ok((lead, follow, body))
    requires kl == 8 * FromLe(c.hmac(k.chainCode, [lead] + body)[..28]) + FromLe(k.kl)
    requires kr == (FromLe(c.hmac(k.chainCode, [lead] + body)[32..]) + FromLe(k.kr)) % TWO_256
    ensures Child(c, k, index)
         == if kl >= TWO_256 then Err(Overflow)
            else Ok(ExtendedKey(Le(kl, 32), Le(kr, 32), c.hmac(k.chainCode, [follow] + body)[32..]))
  {
  }

  /** Adding a multiple of the base point to a public key; there is none if that is nothing at all. */
  type AddPoint = (seq<byte>, nat) -> Option<seq<byte>>

  /** A larger scalar's public key is the smaller one's and the difference times the base point. */
  ghost predicate Additive(c: Primitives, add: AddPoint) {
    forall kl: seq<byte>, more: seq<byte>, n: nat ::
      |kl| == 32 && |more| == 32 && c.publicKey(kl).Some? && FromLe(more) == FromLe(kl) + n ==>
        c.publicKey(more) == add(c.publicKey(kl).value, n)
  }

  /** A soft child's public key and chain code follow from the parent's public key and chain code alone. */
  lemma SoftFromPublic(c: Primitives, add: AddPoint, k: ExtendedKey, public: seq<byte>, index: int)
    requires Is512(c) && WellSized(k) && Additive(c, add) && c.publicKey(k.kl) == Some(public)
    requires 0 <= index < 0x8000_0000 && Child(c, k, index).Ok?
    ensures var child := Child(c, k, index).value;
            var z := c.hmac(k.chainCode, [2] + (public + IndexBytes(index)));
            && c.publicKey(child.kl) == add(public, 8 * FromLe(z[..28]))
            && child.chainCode == c.hmac(k.chainCode, [3] + (public + IndexBytes(index)))[32..]
  {
    ChildMeans(c, k, index);
    var z := c.hmac(k.chainCode, [2] + (public + IndexBytes(index)));
    assert FromLe(Child(c, k, index).value.kl) == FromLe(k.kl) + 8 * FromLe(z[..28]);
  }

  /** No child has an index outside 32 bits, and no soft child a parent without a public key. */
  lemma ChildExists(c: Primitives, k: ExtendedKey, index: int)
    requires Is512(c) && WellSized(k)
    ensures Child(c, k, index) == Err(BadIndex) <==> index < 0 || index >= 0x1_0000_0000
    ensures Child(c, k, index) == Err(ZeroScalar) <==> 0 <= index < 0x8000_0000 && c.publicKey(k.kl).None?
  {
  }

  function DeriveFrom(c: Primitives, k: ExtendedKey, path: seq<int>): (r: Result<ExtendedKey, KeyError>)
    requires Is512(c) && WellSized(k)
    ensures r.Ok? ==> WellSized(r.value)
    decreases |path|
  {
    if path == [] then Ok(k)
    else
      var child := Child(c, k, path[0]);
      if child.Err? then child else DeriveFrom(c, child.value, path[1..])
  }

  /** The last index of a path is the last step. */
  lemma {:induction false} LastStep(c: Primitives, k: ExtendedKey, path: seq<int>, index: int)
    requires Is512(c) && WellSized(k)
    ensures var before := DeriveFrom(c, k, path);
            DeriveFrom(c, k, path + [index]) == if before.Err? then before else Child(c, before.value, index)
    decreases |path|
  {
    var more := path + [index];
    if path == [] {
      assert more[1..] == [];
    } else {
      assert more[1..] == path[1..] + [index];
      if Child(c, k, path[0]).Ok? { LastStep(c, Child(c, k, path[0]).value, path[1..], index); }
    }
  }

  /** `derive`, on a parsed path. */
  method Derive(c: Primitives, root: ExtendedKey, path: seq<int>) returns (r: Result<ExtendedKey, KeyError>)
    requires Is512(c) && WellSized(root)
    ensures r == DeriveFrom(c, root, path)
  {
    var key := root;
    for i := 0 to |path|
      invariant WellSized(key) && DeriveFrom(c, root, path) == DeriveFrom(c, key, path[i..])
    {
      assert path[i..][1..] == path[i + 1..];
      var child := Child(c, key, path[i]);
      if child.Err? {
        return child;
      }
      key := child.value;
    }
    return Ok(key);
  }

  // --- how large the scalar gets --------------------------------------------

  /** A scalar after at most `n` derivations from a root: at least 2^254, and not far above it. */
  ghost predicate InRange(kl: nat, n: nat) { TWO_254 <= kl < 96 * TWO_248 + n * TWO_227 }

  predicate MultipleOf8(n: nat) { n % 8 == 0 }

  lemma FourMore(k: nat)
    ensures Pow256(k + 4) == 0x1_0000_0000 * Pow256(k)
  {
    assert Pow256(k + 4) == 256 * Pow256(k + 3) == 0x1_0000 * Pow256(k + 2) == 0x100_0000 * Pow256(k + 1);
  }

  /** The powers of two, as powers of 256. */
  lemma Powers(k: nat)
    ensures k == 28 ==> Pow256(k) == TWO_224
    ensures k == 31 ==> Pow256(k) == TWO_248
    ensures k == 32 ==> Pow256(k) == TWO_256
  {
    var n: nat := 0;
    FourMore(n);
    FourMore(n + 4);
    FourMore(n + 8);
    FourMore(n + 12);
    FourMore(n + 16);
    FourMore(n + 20);
    FourMore(n + 24);
    FourMore(n + 28);
    assert Pow256(n + 31) == 256 * Pow256(n + 30) == 0x1_0000 * Pow256(n + 29);
  }

  lemma ClampedBounded(low: nat, top: byte, p31: nat)
    requires low < p31 && 64 <= top < 96
    ensures 64 * p31 <= low + top * p31 < 96 * p31
  {
    MulMono(64, top, p31);
    MulMono(top, 95, p31);
  }

  lemma MulMono(x: nat, y: nat, k: nat)
    requires x <= y
    ensures x * k <= y * k
  {
    assert y * k == x * k + (y - x) * k;
  }

  lemma LowByte(bs: seq<byte>)
    requires bs != []
    ensures MultipleOf8(FromLe(bs)) <==> MultipleOf8(bs[0])
  {
  }

  lemma Cleared(b: byte)
    ensures MultipleOf8(b - b % 8)
  {
  }

  lemma AddMultiple(z: nat, n: nat)
    requires MultipleOf8(n)
    ensures MultipleOf8(8 * z + n)
  {
  }

  lemma RootScalar(data: seq<byte>) returns (low: seq<byte>, top: byte)
    requires |data| == 96
    ensures |low| == 31 && RootOf(data).kl == low + [top] && low[0] == data[0] - data[0] % 8 && 64 <= top < 96
  {
    var kl := RootOf(data).kl;
    low, top := kl[..31], kl[31];
  }

  /** Clamping makes every root a multiple of 8 in [2^254, 2^254 + 2^253). */
  lemma RootBounded(data: seq<byte>)
    requires |data| == 96
    ensures MultipleOf8(FromLe(RootOf(data).kl)) && InRange(FromLe(RootOf(data).kl), 0)
  {
    var low, top := RootScalar(data);
    FromLeLast(low, top);
    FromLeBelow(low);
    Powers(31);
    ClampedBounded(FromLe(low), top, Pow256(31));
    Cleared(data[0]);
    LowByte(low + [top]);
  }

  /** Paths up to this long cannot overflow the scalar: 5 * 2^26. */
  const MAX_PATH := 0x1400_0000

  /** A child's scalar is its parent's plus eight times something below 2^224, or too large. */
  lemma ChildScalar(c: Primitives, k: ExtendedKey, index: int) returns (z: nat)
    requires Is512(c) && WellSized(k)
    ensures z < TWO_224
    ensures Child(c, k, index).Ok? ==> FromLe(Child(c, k, index).value.kl) == 8 * z + FromLe(k.kl)
    ensures Child(c, k, index) == Err(Overflow) ==> 8 * z + FromLe(k.kl) >= TWO_256
  {
    z := 0;
    var data := ChildData(c, k, index);
    if data.Ok? {
      var (lead, follow, body) := data.value;
      var zs := c.hmac(k.chainCode, [lead] + body)[..28];
      z := FromLe(zs);
      Below28(zs);
      ChildParts(c, k, index, lead, follow, body);
    }
  }

  lemma Below28(bs: seq<byte>)
    requires |bs| == 28
    ensures FromLe(bs) < TWO_224
  {
    FromLeBelow(bs);
    Powers(28);
  }

  lemma ReadBack32(n: nat)
    requires n < TWO_256
    ensures FromLe(Le(n, 32)) == n
  {
    Powers(32);
    FitsBelow(n, 32);
    FromLeOfLe(n, 32);
  }

  /** A child of a bounded key is bounded by one more derivation, and its scalar never overflows. */
  lemma ChildBounded(c: Primitives, k: ExtendedKey, index: int, n: nat)
    requires Is512(c) && WellSized(k) && MultipleOf8(FromLe(k.kl)) && InRange(FromLe(k.kl), n) && n < MAX_PATH
    ensures var r := Child(c, k, index);
            if r.Ok? then MultipleOf8(FromLe(r.value.kl)) && InRange(FromLe(r.value.kl), n + 1) else r.error != Overflow
  {
    var z := ChildScalar(c, k, index);
    MulMono(n + 1, MAX_PATH, TWO_227);
    AddMultiple(z, FromLe(k.kl));
  }

  lemma {:induction false} DerivedBounded(c: Primitives, k: ExtendedKey, path: seq<int>, n: nat)
    requires Is512(c) && WellSized(k) && MultipleOf8(FromLe(k.kl)) && InRange(FromLe(k.kl), n) && n + |path| <= MAX_PATH
    ensures var r := DeriveFrom(c, k, path);
            if r.Ok? then MultipleOf8(FromLe(r.value.kl)) && InRange(FromLe(r.value.kl), n + |path|)
            else r.error != Overflow
    decreases |path|
  {
    if path != [] {
      ChildBounded(c, k, path[0], n);
      if Child(c, k, path[0]).Ok? {
        DerivedBounded(c, Child(c, k, path[0]).value, path[1..], n + 1);
      }
    }
  }

  /**
   * Along any path of up to 5 * 2^26 indices from a root, the scalar stays a
   * multiple of 8, at least 2^254 and below 2^256; so the overflow error cannot
   * be reached.
   */
  lemma PathFromRoot(c: Primitives, data: seq<byte>, path: seq<int>)
    requires Is512(c) && |data| == 96 && |path| <= MAX_PATH
    ensures var r := DeriveFrom(c, RootOf(data), path);
            if r.Err? then r.error != Overflow
            else MultipleOf8(FromLe(r.value.kl)) && TWO_254 <= FromLe(r.value.kl) < TWO_256
  {
    RootBounded(data);
    DerivedBounded(c, RootOf(data), path, 0);
    MulMono(|path|, MAX_PATH, TWO_227);
  }
}
