/** Small shared vocabulary: results, bytes, powers of two, sums. */
module Common {

  datatype Option<+T> = None | Some(value: T)

  datatype Result<+T, +E> = Ok(value: T) | Err(error: E) {
    predicate IsFailure() { Err? }

    function PropagateFailure<U>(): Result<U, E>
      requires Err?
    {
      Err(error)
    }

    function Extract(): T
      requires Ok?
    {
      value
    }
  }

  type byte = x: int | 0 <= x < 256

  function Pow2(n: nat): (p: nat)
    ensures p > 0
  {
    if n == 0 then 1 else 2 * Pow2(n - 1)
  }

  function Pow256(n: nat): (p: nat)
    ensures p > 0
  {
    if n == 0 then 1 else 256 * Pow256(n - 1)
  }

  lemma MulGap(a: nat, b: nat, p: nat)
    requires a > b
    ensures a * p >= b * p + p
  {
    var k := a - b - 1;
    assert k * p >= 0;
    assert a * p == b * p + (k + 1) * p;
    assert (k + 1) * p == k * p + p;
  }

  lemma DivMod(n: nat, p: nat)
    requires p > 0
    ensures n == n / p * p + n % p && 0 <= n % p < p
  {
  }

  lemma DivUnique(n: nat, p: nat, q: nat, r: nat)
    requires n == q * p + r && r < p
    ensures n / p == q && n % p == r
  {
    var q', r' := n / p, n % p;
    DivMod(n, p);
    assert n == q' * p + r';
    if q' > q {
      MulGap(q', q, p);
    } else if q' < q {
      MulGap(q, q', p);
    }
  }

  function Max(a: int, b: int): int { if a >= b then a else b }

  predicate NoDup<T(==)>(s: seq<T>) {
    forall i, j :: 0 <= i < j < |s| ==> s[i] != s[j]
  }

  /** Python's slice `b[i:j]` for 0 <= i and 0 <= j: clipped at the end, never an error. */
  function Slice<T>(b: seq<T>, i: nat, j: nat): (r: seq<T>)
    ensures |r| <= if i <= j then j - i else 0
  {
    var lo := if i <= |b| then i else |b|;
    var hi := if j <= |b| then j else |b|;
    if lo <= hi then b[lo..hi] else []
  }

  function Repeat<T>(x: T, n: nat): (r: seq<T>)
    ensures |r| == n
  {
    if n == 0 then [] else Repeat(x, n - 1) + [x]
  }

  lemma Assoc<T>(a: seq<T>, b: seq<T>, c: seq<T>)
    ensures a + b + c == a + (b + c)
  {
  }

  /** The encodings of `xs`, one after the other. */
  function All<T>(enc: T --> seq<byte>, xs: seq<T>): seq<byte>
    requires forall k :: 0 <= k < |xs| ==> enc.requires(xs[k])
  {
    if xs == [] then [] else enc(xs[0]) + All(enc, xs[1..])
  }

  lemma {:induction false} AllConcat<T>(enc: T --> seq<byte>, xs: seq<T>, ys: seq<T>)
    requires forall k :: 0 <= k < |xs| ==> enc.requires(xs[k])
    requires forall k :: 0 <= k < |ys| ==> enc.requires(ys[k])
    ensures All(enc, xs + ys) == All(enc, xs) + All(enc, ys)
  {
    if xs == [] {
      assert [] + ys == ys;
    } else {
      AllConcat(enc, xs[1..], ys);
      assert (xs + ys)[1..] == xs[1..] + ys;
      Assoc(enc(xs[0]), All(enc, xs[1..]), All(enc, ys));
    }
  }

  lemma AllAppend<T>(enc: T --> seq<byte>, xs: seq<T>, x: T)
    requires enc.requires(x) && forall k :: 0 <= k < |xs| ==> enc.requires(xs[k])
    ensures All(enc, xs + [x]) == All(enc, xs) + enc(x)
  {
    AllConcat(enc, xs, [x]);
    assert [x][1..] == [];
    assert enc(x) + [] == enc(x);
  }

  /** One more encoding on the end of a prefix's. */
  lemma AllNext<T>(enc: T --> seq<byte>, xs: seq<T>, k: nat, before: seq<byte>)
    requires k < |xs| && forall j :: 0 <= j <= k ==> enc.requires(xs[j])
    ensures before + All(enc, xs[..k]) + enc(xs[k]) == before + All(enc, xs[..k + 1])
  {
    AllAppend(enc, xs[..k], xs[k]);
    assert xs[..k + 1] == xs[..k] + [xs[k]];
    Assoc(before, All(enc, xs[..k]), enc(xs[k]));
  }
}
