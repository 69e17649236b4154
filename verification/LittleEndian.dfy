/** Fixed-width little-endian integers. */
module LittleEndian {
  import opened Common

  function Le(n: nat, k: nat): (r: seq<byte>)
    ensures |r| == k
  {
    if k == 0 then [] else [n % 256] + Le(n / 256, k - 1)
  }

  /** The lowest byte first. */
  lemma LeFour(n: nat)
    ensures Le(n, 4) == [n % 256, n / 256 % 256, n / 256 / 256 % 256, n / 256 / 256 / 256 % 256]
  {
    var a, b, c := n / 256, n / 256 / 256, n / 256 / 256 / 256;
    assert Le(c, 1) == [c % 256] + Le(c / 256, 0);
    assert Le(b, 2) == [b % 256] + Le(c, 1);
    assert Le(a, 3) == [a % 256] + Le(b, 2);
    assert Le(n, 4) == [n % 256] + Le(a, 3);
  }

  function FromLe(bs: seq<byte>): nat {
    if bs == [] then 0 else bs[0] + 256 * FromLe(bs[1..])
  }

  /** Does `n` fit in `k` bytes? */
  predicate Fits(n: int, k: nat) {
    n >= 0 && if k == 0 then n == 0 else Fits(n / 256, k - 1)
  }

  lemma {:induction false} FromLeOfLe(n: nat, k: nat)
    requires Fits(n, k)
    ensures FromLe(Le(n, k)) == n
  {
    if k > 0 {
      FromLeOfLe(n / 256, k - 1);
      assert Le(n, k)[1..] == Le(n / 256, k - 1);
    }
  }

  lemma {:induction false} LeOfFromLe(bs: seq<byte>)
    ensures Fits(FromLe(bs), |bs|) && Le(FromLe(bs), |bs|) == bs
  {
    if bs != [] {
      LeOfFromLe(bs[1..]);
      assert FromLe(bs) / 256 == FromLe(bs[1..]) && FromLe(bs) % 256 == bs[0];
      assert bs == [bs[0]] + bs[1..];
    }
  }

  lemma LeInjective(m: nat, n: nat, k: nat)
    requires Fits(m, k) && Fits(n, k) && Le(m, k) == Le(n, k)
    ensures m == n
  {
    FromLeOfLe(m, k);
    FromLeOfLe(n, k);
  }

  lemma FitsBounds(n: int)
    ensures Fits(n, 2) <==> 0 <= n <= 0xFFFF
    ensures Fits(n, 4) <==> 0 <= n <= 0xFFFF_FFFF
    ensures Fits(n, 8) <==> 0 <= n <= 0xFFFF_FFFF_FFFF_FFFF
  {
    if n >= 0 {
      var a := n / 256 / 256;
      var b := a / 256 / 256;
      var c := b / 256 / 256;
      assert Fits(n, 2) == Fits(a, 0);
      assert Fits(n, 4) == Fits(n / 256, 3) == Fits(a, 2) == Fits(a / 256, 1) == Fits(b, 0);
      assert Fits(n, 8) == Fits(n / 256, 7) == Fits(a, 6) == Fits(a / 256, 5) == Fits(b, 4)
          == Fits(b / 256, 3) == Fits(c, 2) == Fits(c / 256, 1) == Fits(c / 256 / 256, 0);
    }
  }

  lemma {:induction false} FromLeBelow(bs: seq<byte>)
    ensures FromLe(bs) < Pow256(|bs|)
  {
    if bs != [] { FromLeBelow(bs[1..]); }
  }

  lemma {:induction false} FitsBelow(n: nat, k: nat)
    requires n < Pow256(k)
    ensures Fits(n, k)
  {
    if k > 0 { FitsBelow(n / 256, k - 1); }
  }

  /** The last byte weighs most. */
  lemma {:induction false} FromLeLast(bs: seq<byte>, last: byte)
    ensures FromLe(bs + [last]) == FromLe(bs) + last * Pow256(|bs|)
  {
    if bs == [] {
      assert [] + [last] == [last] && [last][1..] == [];
    } else {
      FromLeLast(bs[1..], last);
      assert (bs + [last])[1..] == bs[1..] + [last];
      var m := last * Pow256(|bs| - 1);
      assert 256 * m == last * Pow256(|bs|);
    }
  }
}
