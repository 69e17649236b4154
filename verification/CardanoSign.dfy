/** Ed25519 signing with an extended key, over an abstract group. */
module CardanoSign {
  import opened Common
  import opened LittleEndian
  import opened CardanoKeys

  /** L, the order of the base point. */
  const ORDER: nat := 0x1000_0000_0000_0000_0000_0000_0000_0000_14DE_F9DE_A2F7_9CD6_5812_631A_5CF5_D3ED

  /** The curve's points, and their 32-byte encoding. */
  datatype Curve<!P> = Curve(add: (P, P) -> P, zero: P, base: P, order: nat,
                             encode: P -> seq<byte>, decode: seq<byte> -> Option<P>)

  /** Repeated addition. */
  function Mul<P>(g: Curve<P>, n: nat, x: P): P {
    if n == 0 then g.zero else g.add(x, Mul(g, n - 1, x))
  }

  predicate Associates<P(==)>(g: Curve<P>, x: P, y: P, z: P) { g.add(g.add(x, y), z) == g.add(x, g.add(y, z)) }

  predicate Neutral<P(==)>(g: Curve<P>, x: P) { g.add(g.zero, x) == x }

  ghost predicate IsMonoid<P(!new)>(g: Curve<P>) {
    (forall x, y, z :: Associates(g, x, y, z)) && (forall x :: Neutral(g, x))
  }

  /** The laws signing rests on: points add as in a group, and L times the base point is zero. */
  ghost predicate IsGroup<P(!new)>(g: Curve<P>) {
    IsMonoid(g) && g.order == ORDER && Mul(g, g.order, g.base) == g.zero
  }

  ghost predicate Readable<P(!new)>(g: Curve<P>) {
    forall x :: |g.encode(x)| == 32 && g.decode(g.encode(x)) == Some(x)
  }

  type Sha512 = seq<byte> -> seq<byte>

  /** `_reduce`: the scalar modulo L. */
  function Reduce(scalar: seq<byte>): (r: nat)
    ensures r < ORDER
  {
    FromLe(scalar) % ORDER
  }

  /** `_point`: the encoded multiple of the base point; the primitive refuses the scalar zero. */
  function Point<P>(g: Curve<P>, scalar: seq<byte>): Option<seq<byte>> {
    if Reduce(scalar) == 0 then None else Some(g.encode(Mul(g, Reduce(scalar), g.base)))
  }

  /** The verification equation of RFC 8032 section 5.1.7. */
  predicate Verify<P(==)>(g: Curve<P>, sha: Sha512, public: seq<byte>, message: seq<byte>, signature: seq<byte>) {
    && |signature| == 64
    && var rBytes, s := signature[..32], FromLe(signature[32..]);
       var a, r := g.decode(public), g.decode(rBytes);
       && s < ORDER && a.Some? && r.Some?
       && Mul(g, s, g.base) == g.add(r.value, Mul(g, FromLe(sha(rBytes + public + message)), a.value))
  }

  /** The signature before it is checked: R and S. */
  function RawSignature<P>(g: Curve<P>, sha: Sha512, k: ExtendedKey, message: seq<byte>): Option<seq<byte>> {
    var public := Point(g, k.kl);
    var nonce := sha(k.kr + message);
    var bigR := Point(g, nonce);
    if public.None? || bigR.None? then None
    else
      var h := Reduce(sha(bigR.value + public.value + message));
      var s := (Reduce(nonce) + h * Reduce(k.kl) % ORDER) % ORDER;
      Some(bigR.value + Le(s, 32))
  }

  /** `ExtendedKey.sign`, which refuses to return a signature that does not verify. */
  function Sign<P(==)>(g: Curve<P>, sha: Sha512, k: ExtendedKey, message: seq<byte>): Option<seq<byte>> {
    var signature := RawSignature(g, sha, k, message);
    if signature.None? || !Verify(g, sha, Point(g, k.kl).value, message, signature.value) then None else signature
  }

  // --- multiples ------------------------------------------------------------

  lemma {:induction false} MulAdd<P(!new)>(g: Curve<P>, m: nat, n: nat, x: P)
    requires IsMonoid(g)
    ensures Mul(g, m + n, x) == g.add(Mul(g, m, x), Mul(g, n, x))
    decreases m
  {
    if m == 0 {
      assert Neutral(g, Mul(g, n, x));
    } else {
      MulAdd(g, m - 1, n, x);
      assert Associates(g, x, Mul(g, m - 1, x), Mul(g, n, x));
    }
  }

  lemma OneLess(m: nat, n: nat) returns (p: nat)
    requires m > 0
    ensures p == (m - 1) * n && m * n == n + p
  {
    p := (m - 1) * n;
  }

  lemma {:induction false} MulMul<P(!new)>(g: Curve<P>, m: nat, n: nat, product: nat, x: P)
    requires IsMonoid(g) && product == m * n
    ensures Mul(g, product, x) == Mul(g, m, Mul(g, n, x))
    decreases m
  {
    if m > 0 {
      var p := OneLess(m, n);
      MulMul(g, m - 1, n, p, x);
      MulAdd(g, n, p, x);
    }
  }

  lemma {:induction false} MulZero<P(!new)>(g: Curve<P>, m: nat)
    requires IsMonoid(g)
    ensures Mul(g, m, g.zero) == g.zero
  {
    if m > 0 {
      MulZero(g, m - 1);
      assert Neutral(g, g.zero);
    }
  }

  /** `n` less a multiple of the order. */
  predicate Reduces(n: nat, order: nat, q: nat, multiple: nat, r: nat) {
    multiple == q * order && n == multiple + r
  }

  lemma Divided(n: nat, order: nat) returns (q: nat, multiple: nat)
    requires order > 0
    ensures Reduces(n, order, q, multiple, n % order)
  {
    q := n / order;
    multiple := q * order;
    DivMod(n, order);
  }

  /** Multiples of the base point only depend on the multiplier modulo its order. */
  lemma MulReduced<P(!new)>(g: Curve<P>, n: nat, q: nat, multiple: nat, r: nat)
    requires IsMonoid(g) && Mul(g, g.order, g.base) == g.zero && Reduces(n, g.order, q, multiple, r)
    ensures Mul(g, r, g.base) == Mul(g, n, g.base)
  {
    MulAdd(g, multiple, r, g.base);
    MulMul(g, q, g.order, multiple, g.base);
    MulZero(g, q);
    assert Neutral(g, Mul(g, r, g.base));
  }

  lemma MulMod<P(!new)>(g: Curve<P>, n: nat)
    requires IsMonoid(g) && g.order > 0 && Mul(g, g.order, g.base) == g.zero
    ensures Mul(g, n % g.order, g.base) == Mul(g, n, g.base)
  {
    var q, multiple := Divided(n, g.order);
    var r := n % g.order;
    MulReduced(g, n, q, multiple, r);
  }

  lemma MulSwap<P(!new)>(g: Curve<P>, h: nat, a: nat, product: nat)
    requires IsMonoid(g) && product == h * a
    ensures Mul(g, product, g.base) == Mul(g, h, Mul(g, a, g.base)) == Mul(g, a, Mul(g, h, g.base))
  {
    MulMul(g, h, a, product, g.base);
    MulMul(g, a, h, product, g.base);
  }

  /** The signature equation, S·B = R + h·A, of scalars that agree with the reduced ones up to multiples of L. */
  lemma SignatureEquation<P(!new)>(g: Curve<P>, r: nat, h: nat, a: nat, reduced: nat, product: nat, whole: nat,
                                   rest: nat, s: nat)
    requires IsMonoid(g) && product == reduced * a && whole == h * a
    requires Mul(g, reduced, g.base) == Mul(g, h, g.base)
    requires Mul(g, rest, g.base) == Mul(g, product, g.base)
    requires Mul(g, s, g.base) == Mul(g, r + rest, g.base)
    ensures Mul(g, s, g.base) == g.add(Mul(g, r, g.base), Mul(g, h, Mul(g, a, g.base)))
  {
    MulAdd(g, r, rest, g.base);
    MulSwap(g, reduced, a, product);
    MulSwap(g, h, a, whole);
  }

  lemma ReducedEquation<P(!new)>(g: Curve<P>, r: nat, h: nat, a: nat, s: nat)
    requires IsGroup(g) && s == (r + h % ORDER * a % ORDER) % ORDER
    ensures Mul(g, s, g.base) == g.add(Mul(g, r, g.base), Mul(g, h, Mul(g, a, g.base)))
  {
    var reduced := h % ORDER;
    var product := reduced * a;
    MulMod(g, h);
    MulMod(g, product);
    MulMod(g, r + product % ORDER);
    SignatureEquation(g, r, h, a, reduced, product, h * a, product % ORDER, s);
  }

  // --- every signature verifies ---------------------------------------------

  lemma SignatureParts<P(!new)>(g: Curve<P>, bigR: seq<byte>, s: nat)
    requires |bigR| == 32 && s < ORDER
    ensures |bigR + Le(s, 32)| == 64 && (bigR + Le(s, 32))[..32] == bigR && FromLe((bigR + Le(s, 32))[32..]) == s
  {
    assert (bigR + Le(s, 32))[32..] == Le(s, 32);
    Powers(32);
    FitsBelow(s, 32);
    FromLeOfLe(s, 32);
  }

  /**
   * Every signature made is canonical and satisfies the verification equation
   * under the key's own public key, which is kL times the base point; so the
   * self-check never refuses one.
   */
  lemma SignVerifies<P(!new)>(g: Curve<P>, sha: Sha512, k: ExtendedKey, message: seq<byte>)
    requires IsGroup(g) && Readable(g)
    ensures Sign(g, sha, k, message) == RawSignature(g, sha, k, message)
    ensures Sign(g, sha, k, message).Some? ==>
              && Point(g, k.kl) == Some(g.encode(Mul(g, FromLe(k.kl), g.base)))
              && Verify(g, sha, Point(g, k.kl).value, message, Sign(g, sha, k, message).value)
  {
    if RawSignature(g, sha, k, message).Some? {
      var a, r := Reduce(k.kl), Reduce(sha(k.kr + message));
      var public, bigR := g.encode(Mul(g, a, g.base)), g.encode(Mul(g, r, g.base));
      var h := FromLe(sha(bigR + public + message));
      var s := (r + h % ORDER * a % ORDER) % ORDER;
      MulMod(g, FromLe(k.kl));
      ReducedEquation(g, r, h, a, s);
      SignatureParts(g, bigR, s);
    }
  }

  /**
   * A signature, spelled out: R is the encoded multiple of the base point by the
   * hash of the right half and the message, and S times the base point is R and
   * the hash of R, the public key and the message times the public key. There is
   * none exactly when the scalar or the nonce is a multiple of L.
   */
  lemma SignatureMeans<P(!new)>(g: Curve<P>, sha: Sha512, k: ExtendedKey, message: seq<byte>)
    requires IsGroup(g) && Readable(g)
    ensures Sign(g, sha, k, message).None?
            <==> FromLe(k.kl) % ORDER == 0 || FromLe(sha(k.kr + message)) % ORDER == 0
    ensures Sign(g, sha, k, message).Some? ==>
              var signature := Sign(g, sha, k, message).value;
              var a, r := Mul(g, FromLe(k.kl), g.base), Mul(g, FromLe(sha(k.kr + message)), g.base);
              && |signature| == 64 && signature[..32] == g.encode(r) && FromLe(signature[32..]) < ORDER
              && Mul(g, FromLe(signature[32..]), g.base)
                 == g.add(r, Mul(g, FromLe(sha(g.encode(r) + g.encode(a) + message)), a))
  {
    SignVerifies(g, sha, k, message);
    if Sign(g, sha, k, message).Some? {
      MulMod(g, FromLe(k.kl));
      MulMod(g, FromLe(sha(k.kr + message)));
      var bigR := g.encode(Mul(g, Reduce(sha(k.kr + message)), g.base));
      var h := Reduce(sha(bigR + Point(g, k.kl).value + message));
      SignatureParts(g, bigR, (Reduce(sha(k.kr + message)) + h * Reduce(k.kl) % ORDER) % ORDER);
    }
  }
}
