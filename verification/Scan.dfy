/** Gap-limit scanning of an account's address branches. */
module Scan {
  import opened Common

  datatype Path = Path(account: string, branch: int, index: nat)

  datatype AddressInfo = AddressInfo(hasHistory: bool, confirmed: int, pending: int)

  datatype Found = Found(path: Path, address: string, info: AddressInfo)

  /** What a scan is given: how paths become addresses and what is known of an address. */
  datatype Source = Source(account: string, derive: Path -> string, probe: string -> AddressInfo) {

    function At(branch: int, index: nat): Found {
      var path := Path(account, branch, index);
      var address := derive(path);
      Found(path, address, probe(address))
    }

    predicate Used(branch: int, index: nat) { At(branch, index).info.hasHistory }

    /** The used addresses of a branch below an index, in order. */
    function UsedBelow(branch: int, index: nat): seq<Found> {
      if index == 0 then []
      else UsedBelow(branch, index - 1) + (if Used(branch, index - 1) then [At(branch, index - 1)] else [])
    }

    /** How many consecutive unused addresses lie directly below an index. */
    function Gap(branch: int, index: nat): nat {
      if index == 0 || Used(branch, index - 1) then 0 else 1 + Gap(branch, index - 1)
    }

    /** Where a scan in windows stops: the first window boundary with a long enough gap below it. */
    ghost predicate StopsAt(branch: int, gapLimit: nat, window: nat, stop: nat)
      requires window > 0
    {
      Gap(branch, stop) >= gapLimit && Boundary(window, stop)
      && forall m :: 0 <= m < stop && Boundary(window, m) ==> Gap(branch, m) < gapLimit
    }

    /** No address of the branch is used from `bound` on. */
    ghost predicate UsedBoundedBy(branch: int, bound: nat) {
      forall i: nat :: i >= bound ==> !Used(branch, i)
    }

    /** One branch: the loop over windows, and where it stopped. */
    method ScanBranch(branch: int, gapLimit: nat, window: nat, ghost bound: nat, before: seq<Found>)
      returns (found: seq<Found>, stop: nat)
      requires window > 0 && UsedBoundedBy(branch, bound)
      ensures StopsAt(branch, gapLimit, window, stop)
      ensures found == before + UsedBelow(branch, stop)
    {
      var gap, index := 0, 0;
      ghost var k := 0;
      found := before;
      assert before + [] == before;
      while gap < gapLimit
        invariant index == k * window && gap == Gap(branch, index)
        invariant found == before + UsedBelow(branch, index)
        invariant forall m :: 0 <= m < index && Boundary(window, m) ==> Gap(branch, m) < gapLimit
        decreases if index < bound then bound - index else 0, gapLimit - gap
      {
        ghost var gapBefore := gap;
        for i := 0 to window
          invariant gap == Gap(branch, index + i)
          invariant found == before + UsedBelow(branch, index + i)
          invariant index >= bound ==> gap == gapBefore + i
        {
          var here := At(branch, index + i);
          ghost var sofar := UsedBelow(branch, index + i);
          if here.info.hasHistory {
            gap := 0;
            assert before + (sofar + [here]) == (before + sofar) + [here];
            found := found + [here];
          } else {
            gap := gap + 1;
            assert sofar + [] == sofar;
          }
        }
        NoBoundaryBetween(window, k);
        index := index + window;
        k := k + 1;
      }
      stop := index;
      assert stop == k * window;
    }

    /** `scan_account`: every branch in turn, and where each stopped. */
    method ScanAccount(gapLimit: nat, branches: seq<int>, window: nat, ghost bound: nat)
      returns (found: seq<Found>, stops: seq<nat>)
      requires window > 0 && forall b :: b in branches ==> UsedBoundedBy(b, bound)
      ensures |stops| == |branches|
      ensures forall k :: 0 <= k < |branches| ==> StopsAt(branches[k], gapLimit, window, stops[k])
      ensures found == AllBelow(branches, stops)
    {
      found, stops := [], [];
      for k := 0 to |branches|
        invariant |stops| == k
        invariant forall j :: 0 <= j < k ==> StopsAt(branches[j], gapLimit, window, stops[j])
        invariant found == AllBelow(branches[..k], stops)
      {
        var stop;
        found, stop := ScanBranch(branches[k], gapLimit, window, bound, found);
        assert branches[..k + 1][..k] == branches[..k] && (stops + [stop])[..k] == stops;
        stops := stops + [stop];
      }
      assert branches[..|branches|] == branches;
    }

    function AllBelow(branches: seq<int>, stops: seq<nat>): seq<Found>
      requires |branches| == |stops|
    {
      if branches == [] then []
      else
        var n := |branches| - 1;
        AllBelow(branches[..n], stops[..n]) + UsedBelow(branches[n], stops[n])
    }

    // --- what a scan can miss -----------------------------------------------

    lemma {:induction false} GapUnused(branch: int, index: nat, k: nat)
      requires k < Gap(branch, index)
      ensures k < index && !Used(branch, index - 1 - k)
      decreases k
    {
      if k > 0 { GapUnused(branch, index - 1, k - 1); }
    }

    /** The scan reports exactly the used addresses below its stopping point. */
    lemma {:induction false} ReportedExactly(branch: int, stop: nat, f: Found)
      ensures f in UsedBelow(branch, stop) <==> exists i: nat :: i < stop && Used(branch, i) && f == At(branch, i)
    {
      if stop > 0 {
        ReportedExactly(branch, stop - 1, f);
      }
    }

    /** `gapLimit` consecutive unused addresses directly below `end`. */
    ghost predicate LongGap(branch: int, gapLimit: nat, end: nat) {
      gapLimit <= end && forall j: nat :: end - gapLimit <= j < end ==> !Used(branch, j)
    }

    /** An address it misses lies beyond a long gap. */
    lemma MissedBeyondGap(branch: int, gapLimit: nat, window: nat, stop: nat, i: nat)
      requires window > 0 && StopsAt(branch, gapLimit, window, stop)
      requires Used(branch, i) && At(branch, i) !in UsedBelow(branch, stop)
      ensures stop <= i && LongGap(branch, gapLimit, stop)
    {
      ReportedExactly(branch, stop, At(branch, i));
      if gapLimit > 0 { GapUnused(branch, stop, gapLimit - 1); }
      forall j: nat | stop - gapLimit <= j < stop ensures !Used(branch, j) {
        GapUnused(branch, stop, stop - 1 - j);
      }
    }

    /** So a used address with no long gap anywhere below it is always found. */
    lemma FindsAll(branch: int, gapLimit: nat, window: nat, stop: nat, i: nat)
      requires window > 0 && StopsAt(branch, gapLimit, window, stop) && Used(branch, i)
      requires forall end: nat :: end <= i ==> !LongGap(branch, gapLimit, end)
      ensures At(branch, i) in UsedBelow(branch, stop)
    {
      if At(branch, i) !in UsedBelow(branch, stop) {
        MissedBeyondGap(branch, gapLimit, window, stop, i);
      }
    }

    // --- the balance --------------------------------------------------------

    /** An amount summed over every address of a branch below an index, used or not. */
    function BranchTotal(branch: int, index: nat, amount: AddressInfo -> int): int {
      if index == 0 then 0 else BranchTotal(branch, index - 1, amount) + amount(At(branch, index - 1).info)
    }

    /** The same over several branches. */
    function AccountTotal(branches: seq<int>, index: nat, amount: AddressInfo -> int): int {
      if branches == [] then 0
      else AccountTotal(branches[..|branches| - 1], index, amount)
           + BranchTotal(branches[|branches| - 1], index, amount)
    }

    /** An address without history holds nothing. */
    ghost predicate NothingUnused(branch: int, amount: AddressInfo -> int) {
      forall i: nat :: !Used(branch, i) ==> amount(At(branch, i).info) == 0
    }

    /** Below no used address is there a long gap. */
    ghost predicate Reachable(branch: int, gapLimit: nat) {
      forall i: nat, end: nat :: Used(branch, i) && end <= i ==> !LongGap(branch, gapLimit, end)
    }

    lemma {:induction false} BranchSum(branch: int, gapLimit: nat, window: nat, stop: nat, index: nat,
                                       amount: AddressInfo -> int)
      requires window > 0 && StopsAt(branch, gapLimit, window, stop) && index >= stop
      requires NothingUnused(branch, amount) && Reachable(branch, gapLimit)
      ensures Sum(UsedBelow(branch, stop), amount) == BranchTotal(branch, index, amount)
      decreases index - stop
    {
      if index == stop {
        SumBelow(branch, stop, amount);
      } else {
        BranchSum(branch, gapLimit, window, stop, index - 1, amount);
        if Used(branch, index - 1) {
          FindsAll(branch, gapLimit, window, stop, index - 1);
          ReportedExactly(branch, stop, At(branch, index - 1));
        }
      }
    }

    lemma {:induction false} SumBelow(branch: int, index: nat, amount: AddressInfo -> int)
      requires NothingUnused(branch, amount)
      ensures Sum(UsedBelow(branch, index), amount) == BranchTotal(branch, index, amount)
    {
      if index > 0 {
        SumBelow(branch, index - 1, amount);
        var init, f := UsedBelow(branch, index - 1), At(branch, index - 1);
        if Used(branch, index - 1) {
          SumConcat(init, [f], amount);
          assert [f][1..] == [];
        } else {
          assert init + [] == init;
        }
      }
    }

    lemma {:induction false} AccountSum(gapLimit: nat, window: nat, branches: seq<int>, stops: seq<nat>, index: nat,
                                        amount: AddressInfo -> int)
      requires window > 0 && |stops| == |branches|
      requires forall k :: 0 <= k < |branches| ==> StopsAt(branches[k], gapLimit, window, stops[k]) && stops[k] <= index
      requires forall b :: b in branches ==> NothingUnused(b, amount) && Reachable(b, gapLimit)
      ensures Sum(AllBelow(branches, stops), amount) == AccountTotal(branches, index, amount)
    {
      if branches != [] {
        var n := |branches| - 1;
        AccountSum(gapLimit, window, branches[..n], stops[..n], index, amount);
        assert branches[n] in branches;
        BranchSum(branches[n], gapLimit, window, stops[n], index, amount);
        SumConcat(AllBelow(branches[..n], stops[..n]), UsedBelow(branches[n], stops[n]), amount);
      }
    }

    /**
     * With no long gap below a used address, a scan reports what all its branches
     * hold, however far one looks: the confirmed amounts as the confirmed total,
     * the pending ones as the pending total.
     */
    lemma BalanceIsWhole(gapLimit: nat, window: nat, branches: seq<int>, stops: seq<nat>, index: nat,
                         confirmed: AddressInfo -> int, pending: AddressInfo -> int)
      requires forall info :: confirmed(info) == info.confirmed && pending(info) == info.pending
      requires window > 0 && |stops| == |branches|
      requires forall k :: 0 <= k < |branches| ==> StopsAt(branches[k], gapLimit, window, stops[k]) && stops[k] <= index
      requires forall b :: b in branches ==>
                 NothingUnused(b, confirmed) && NothingUnused(b, pending) && Reachable(b, gapLimit)
      ensures WalletBalance(AllBelow(branches, stops))
           == Balance(AccountTotal(branches, index, confirmed), AccountTotal(branches, index, pending))
    {
      AccountSum(gapLimit, window, branches, stops, index, confirmed);
      AccountSum(gapLimit, window, branches, stops, index, pending);
      SumOf(AllBelow(branches, stops), Confirmed, confirmed);
      SumOf(AllBelow(branches, stops), Pending, pending);
    }
  }

  lemma {:induction false} SumOf(found: seq<Found>, f: AddressInfo -> int, g: AddressInfo -> int)
    requires forall info :: f(info) == g(info)
    ensures Sum(found, f) == Sum(found, g)
  {
    if found != [] { SumOf(found[1..], f, g); }
  }

  function Confirmed(info: AddressInfo): int { info.confirmed }

  function Pending(info: AddressInfo): int { info.pending }

  function Sum(found: seq<Found>, amount: AddressInfo -> int): int {
    if found == [] then 0 else amount(found[0].info) + Sum(found[1..], amount)
  }

  datatype Balance = Balance(confirmed: int, pending: int)

  /** `wallet_balance_from_scan`. */
  function WalletBalance(found: seq<Found>): Balance { Balance(Sum(found, Confirmed), Sum(found, Pending)) }

  lemma {:induction false} SumConcat(a: seq<Found>, b: seq<Found>, amount: AddressInfo -> int)
    ensures Sum(a + b, amount) == Sum(a, amount) + Sum(b, amount)
  {
    if a == [] {
      assert a + b == b;
    } else {
      SumConcat(a[1..], b, amount);
      assert (a + b)[1..] == a[1..] + b;
    }
  }

  ghost predicate Boundary(window: nat, m: nat) { exists k: nat :: m == k * window }

  lemma NoBoundaryBetween(window: nat, k: nat)
    requires window > 0
    ensures (k + 1) * window == k * window + window
    ensures forall m :: k * window < m < k * window + window ==> !Boundary(window, m)
  {
    assert (k + 1) * window == k * window + window;
    forall m | k * window < m < k * window + window ensures !Boundary(window, m) {
      if Boundary(window, m) {
        var j: nat :| m == j * window;
        if j > k {
          MulGap(j, k, window);
        } else if j < k {
          MulGap(k, j, window);
        }
      }
    }
  }
}
