/** The pre-broadcast gates a swap deposit and a plain send must pass. */
module Verify {
  import opened Common
  import opened Chain
  import Utf8

  datatype Memo = Text(text: string) | Binary(data: seq<byte>)

  datatype SwapPlan = SwapPlan(inboundAddress: string, amount: int, memo: Memo, expiry: int, destination: string)

  datatype SendPlan = SendPlan(recipient: string, amount: int)

  datatype Problem =
    | Expired
    | PayeeCount(found: nat) | PayeeAmount
    | MemoCount(found: nat) | MemoTooLong | MemoMismatch | MemoNotUtf8 | UnexpectedMemo
    | ForeignChange(address: Option<string>)
    | DestinationNotPaid
    | NegativeFee | FeeTooHigh | FeeMismatch

  // --- memo_pays_destination -----------------------------------------------

  predicate Contains(text: string, part: string) {
    exists i :: 0 <= i <= |text| && part <= text[i..]
  }

  function Lower(s: string): (r: string)
    ensures |r| == |s|
  {
    seq(|s|, i requires 0 <= i < |s| => if 'A' <= s[i] <= 'Z' then (s[i] as int + 32) as char else s[i])
  }

  predicate MemoPaysDestination(destination: string, memo: Memo) {
    destination == "" ||
    (memo.Text? && (Contains(memo.text, destination)
                    || ("0x" <= Lower(destination) && Contains(Lower(memo.text), Lower(destination)))))
  }

  // --- the gates -----------------------------------------------------------

  function Filter(os: seq<TxOutput>, p: TxOutput -> bool): seq<TxOutput> {
    if os == [] then [] else (if p(os[0]) then [os[0]] else []) + Filter(os[1..], p)
  }

  function PayeeProblems(os: seq<TxOutput>, payee: string, amount: int): seq<Problem> {
    var paid := Filter(os, (o: TxOutput) => o.address == Some(payee));
    if |paid| != 1 then [PayeeCount(|paid|)]
    else if paid[0].value != amount then [PayeeAmount]
    else []
  }

  function MemoProblems(os: seq<TxOutput>, memo: Memo, memoMax: nat): seq<Problem> {
    var found := Filter(os, (o: TxOutput) => o.opReturnData.Some?);
    if |found| != 1 || found[0].opReturnData.None? then [MemoCount(|found|)]
    else
      var data := found[0].opReturnData.value;
      (if |data| > memoMax then [MemoTooLong] else [])
      + match memo
        case Binary(expected) => if data != expected then [MemoMismatch] else []
        case Text(expected) =>
          var decoded := Utf8.Decode(data);
          if decoded.None? then [MemoNotUtf8] else if decoded.value != expected then [MemoMismatch] else []
  }

  /** Every output that is neither the payee's nor data must pay an owned address. */
  function ChangeProblems(os: seq<TxOutput>, payee: string, owned: set<string>): seq<Problem> {
    if os == [] then []
    else
      var o := os[0];
      (if o.opReturnData.Some? || o.address == Some(payee) || (o.address.Some? && o.address.value in owned)
       then [] else [ForeignChange(o.address)])
      + ChangeProblems(os[1..], payee, owned)
  }

  function FeeProblems(fee: int, maxFee: int): seq<Problem> {
    if fee < 0 then [NegativeFee] else if fee > maxFee then [FeeTooHigh] else []
  }

  function SwapProblems(os: seq<TxOutput>, fee: int, plan: SwapPlan, owned: set<string>, now: int,
                        maxFee: int, memoMax: nat): seq<Problem> {
    (if now >= plan.expiry then [Expired] else [])
    + PayeeProblems(os, plan.inboundAddress, plan.amount)
    + MemoProblems(os, plan.memo, memoMax)
    + ChangeProblems(os, plan.inboundAddress, owned)
    + (if MemoPaysDestination(plan.destination, plan.memo) then [] else [DestinationNotPaid])
    + FeeProblems(fee, maxFee)
  }

  function SendProblems(os: seq<TxOutput>, fee: int, plan: SendPlan, owned: set<string>, maxFee: int): seq<Problem> {
    PayeeProblems(os, plan.recipient, plan.amount)
    + (if Filter(os, (o: TxOutput) => o.opReturnData.Some?) == [] then [] else [UnexpectedMemo])
    + ChangeProblems(os, plan.recipient, owned)
    + FeeProblems(fee, maxFee)
  }

  /** The change loop both gates run. */
  method CheckChange(os: seq<TxOutput>, payee: string, owned: set<string>, before: seq<Problem>)
    returns (problems: seq<Problem>)
    ensures problems == before + ChangeProblems(os, payee, owned)
  {
    problems := before;
    assert os[0..] == os;
    for k := 0 to |os|
      invariant problems + ChangeProblems(os[k..], payee, owned) == before + ChangeProblems(os, payee, owned)
    {
      var o := os[k];
      assert os[k..][0] == o && os[k..][1..] == os[k + 1..];
      ghost var rest := ChangeProblems(os[k + 1..], payee, owned);
      if o.opReturnData.Some? || o.address == Some(payee) {
        assert [] + rest == rest;
        continue;
      }
      if o.address.None? || o.address.value !in owned {
        assert problems + ([ForeignChange(o.address)] + rest) == (problems + [ForeignChange(o.address)]) + rest;
        problems := problems + [ForeignChange(o.address)];
      } else {
        assert [] + rest == rest;
      }
    }
    assert os[|os|..] == [];
    assert problems + [] == problems;
  }

  /** `verify_btc_swap`. */
  method VerifySwap(os: seq<TxOutput>, fee: int, plan: SwapPlan, owned: set<string>, now: int,
                    maxFee: int, memoMax: nat) returns (problems: seq<Problem>)
    ensures problems == SwapProblems(os, fee, plan, owned, now, maxFee, memoMax)
  {
    problems := [];
    if now >= plan.expiry {
      problems := problems + [Expired];
    }
    problems := problems + PayeeProblems(os, plan.inboundAddress, plan.amount);
    problems := problems + MemoProblems(os, plan.memo, memoMax);
    problems := CheckChange(os, plan.inboundAddress, owned, problems);
    if !MemoPaysDestination(plan.destination, plan.memo) {
      problems := problems + [DestinationNotPaid];
    }
    problems := problems + FeeProblems(fee, maxFee);
  }

  /** `verify_btc_send`. */
  method VerifySend(os: seq<TxOutput>, fee: int, plan: SendPlan, owned: set<string>, maxFee: int)
    returns (problems: seq<Problem>)
    ensures problems == SendProblems(os, fee, plan, owned, maxFee)
  {
    problems := PayeeProblems(os, plan.recipient, plan.amount);
    if Filter(os, (o: TxOutput) => o.opReturnData.Some?) != [] {
      problems := problems + [UnexpectedMemo];
    }
    problems := CheckChange(os, plan.recipient, owned, problems);
    problems := problems + FeeProblems(fee, maxFee);
  }

  // --- what passing a gate means --------------------------------------------

  /** Output `k` is the only one satisfying `p`. */
  ghost predicate Only(os: seq<TxOutput>, p: TxOutput -> bool, k: nat) {
    k < |os| && p(os[k]) && forall i :: 0 <= i < |os| && p(os[i]) ==> i == k
  }

  lemma {:induction false} FilterOnly(os: seq<TxOutput>, p: TxOutput -> bool, k: nat)
    requires Only(os, p, k)
    ensures Filter(os, p) == [os[k]]
  {
    if k == 0 {
      FilterNone(os[1..], p);
    } else {
      assert !p(os[0]);
      FilterOnly(os[1..], p, k - 1);
    }
  }

  lemma {:induction false} FilterNone(os: seq<TxOutput>, p: TxOutput -> bool)
    ensures Filter(os, p) == [] <==> forall i :: 0 <= i < |os| ==> !p(os[i])
  {
    if os != [] {
      FilterNone(os[1..], p);
      if forall i :: 0 <= i < |os[1..]| ==> !p(os[1..][i]) {
        forall i | 1 <= i < |os| ensures !p(os[i]) { assert os[i] == os[1..][i - 1]; }
      }
    }
  }

  lemma {:induction false} OnlyOfFilter(os: seq<TxOutput>, p: TxOutput -> bool) returns (k: nat)
    requires |Filter(os, p)| == 1
    ensures Only(os, p, k) && Filter(os, p) == [os[k]]
  {
    if p(os[0]) {
      k := 0;
      assert Filter(os[1..], p) == [];
      FilterNone(os[1..], p);
      forall i | 1 <= i < |os| ensures !p(os[i]) { assert os[i] == os[1..][i - 1]; }
    } else {
      var j := OnlyOfFilter(os[1..], p);
      k := j + 1;
      forall i | 0 <= i < |os| && p(os[i]) ensures i == k {
        if i > 0 { assert os[i] == os[1..][i - 1]; }
      }
    }
  }

  predicate Accounted(o: TxOutput, payee: string, owned: set<string>) {
    o.opReturnData.Some? || o.address == Some(payee) || (o.address.Some? && o.address.value in owned)
  }

  lemma {:induction false} ChangeProblemsNone(os: seq<TxOutput>, payee: string, owned: set<string>)
    ensures ChangeProblems(os, payee, owned) == [] <==>
            forall i :: 0 <= i < |os| ==> Accounted(os[i], payee, owned)
  {
    if os != [] {
      ChangeProblemsNone(os[1..], payee, owned);
      if forall i :: 0 <= i < |os[1..]| ==> Accounted(os[1..][i], payee, owned) {
        forall i | 1 <= i < |os| ensures Accounted(os[i], payee, owned) { assert os[i] == os[1..][i - 1]; }
      }
    }
  }

  function MemoBytes(memo: Memo): seq<byte> {
    match memo case Text(text) => Utf8.Encode(text) case Binary(data) => data
  }

  /** Output `v` pays the vault, output `d` carries the memo, and everything else comes back to us. */
  ghost predicate Deposit(os: seq<TxOutput>, payee: string, amount: int, memo: seq<byte>, owned: set<string>, v: nat,
                          d: nat)
  {
    && Only(os, (o: TxOutput) => o.address == Some(payee), v) && os[v].value == amount
    && Only(os, (o: TxOutput) => o.opReturnData.Some?, d) && os[d].opReturnData == Some(memo)
    && forall i :: 0 <= i < |os| && i != v && i != d ==> os[i].address.Some? && os[i].address.value in owned
  }

  // --- what it is for a memo to pay a destination ----------------------------

  /** The same letter, or the capital and the small form of one letter of A to Z. */
  predicate SameLetter(a: char, b: char) {
    || a == b
    || ('A' <= a <= 'Z' && b as int == a as int + 32)
    || ('A' <= b <= 'Z' && a as int == b as int + 32)
  }

  /** An EVM address starts with 0x, in either case. */
  predicate StartsLikeHex(d: string) { |d| >= 2 && d[0] == '0' && (d[1] == 'x' || d[1] == 'X') }

  /** The stretch of `text` from `i` spells `d`, but for the case of letters. */
  ghost predicate SpelledAt(text: string, i: nat, d: string) {
    i + |d| <= |text| && forall j :: 0 <= j < |d| ==> SameLetter(text[i + j], d[j])
  }

  /**
   * The memo names the destination: verbatim, or, for an EVM address, up to the
   * case of letters. An empty destination asks for nothing; a binary memo names
   * none.
   */
  ghost predicate NamesDestination(d: string, memo: Memo) {
    d == "" ||
    match memo
    case Binary(_) => false
    case Text(t) => if StartsLikeHex(d) then exists i: nat :: SpelledAt(t, i, d) else exists a, b :: t == a + d + b
  }

  lemma LowerIsSameLetter(s: string, t: string, i: nat, j: nat)
    requires i < |s| && j < |t|
    ensures Lower(s)[i] == Lower(t)[j] <==> SameLetter(s[i], t[j])
  {
  }

  lemma ContainsMeans(t: string, d: string)
    ensures Contains(t, d) <==> exists a, b :: t == a + d + b
  {
    if i :| 0 <= i <= |t| && d <= t[i..] {
      assert t == t[..i] + d + t[i + |d|..];
    }
    if a, b :| t == a + d + b {
      assert t[|a|..] == d + b;
    }
  }

  lemma ContainsLowerMeans(t: string, d: string)
    ensures Contains(Lower(t), Lower(d)) <==> exists i: nat :: SpelledAt(t, i, d)
  {
    if i :| 0 <= i <= |t| && Lower(d) <= Lower(t)[i..] {
      forall j | 0 <= j < |d| ensures SameLetter(t[i + j], d[j]) {
        assert Lower(t)[i..][j] == Lower(d)[j];
        LowerIsSameLetter(t, d, i + j, j);
      }
      assert SpelledAt(t, i, d);
    }
    if i: nat :| SpelledAt(t, i, d) {
      forall j | 0 <= j < |d| ensures Lower(t)[i..][j] == Lower(d)[j] {
        LowerIsSameLetter(t, d, i + j, j);
      }
      assert Lower(d) <= Lower(t)[i..];
    }
  }

  /** `memo_pays_destination` holds exactly when the memo names the destination. */
  lemma MemoPaysMeans(d: string, memo: Memo)
    ensures MemoPaysDestination(d, memo) <==> NamesDestination(d, memo)
  {
    if d != "" && memo.Text? {
      var t := memo.text;
      ContainsMeans(t, d);
      ContainsLowerMeans(t, d);
      HexPrefix(d);
      if a, b :| t == a + d + b {
        forall j | 0 <= j < |d| ensures SameLetter(t[|a| + j], d[j]) {
          assert t[|a| + j] == d[j];
        }
        assert SpelledAt(t, |a|, d);
      }
    }
  }

  lemma HexPrefix(d: string)
    ensures "0x" <= Lower(d) <==> StartsLikeHex(d)
  {
    if |d| >= 2 {
      assert "0x"[0] == '0' && "0x"[1] == 'x';
    }
  }

  /**
   * The swap gate passes exactly the transactions that pay the vault once, the
   * exact amount, carry the memo byte for byte, return everything else, and
   * stay inside the time, size and fee limits, for a memo that names our own
   * destination.
   */
  lemma SwapGateMeans(os: seq<TxOutput>, fee: int, plan: SwapPlan, owned: set<string>, now: int, maxFee: int,
                      memoMax: nat)
    ensures SwapProblems(os, fee, plan, owned, now, maxFee, memoMax) == [] <==>
            && now < plan.expiry && 0 <= fee <= maxFee && |MemoBytes(plan.memo)| <= memoMax
            && NamesDestination(plan.destination, plan.memo)
            && exists v, d :: Deposit(os, plan.inboundAddress, plan.amount, MemoBytes(plan.memo), owned, v, d)
  {
    var pays := (o: TxOutput) => o.address == Some(plan.inboundAddress);
    var carries := (o: TxOutput) => o.opReturnData.Some?;
    ChangeProblemsNone(os, plan.inboundAddress, owned);
    MemoComparison(plan.memo);
    MemoPaysMeans(plan.destination, plan.memo);
    if SwapProblems(os, fee, plan, owned, now, maxFee, memoMax) == [] {
      var v := OnlyOfFilter(os, pays);
      var d := OnlyOfFilter(os, carries);
      forall i | 0 <= i < |os| && i != v && i != d ensures os[i].address.Some? && os[i].address.value in owned {
        assert Accounted(os[i], plan.inboundAddress, owned) && !pays(os[i]) && !carries(os[i]);
      }
      assert Deposit(os, plan.inboundAddress, plan.amount, MemoBytes(plan.memo), owned, v, d);
    }
    if v, d :| Deposit(os, plan.inboundAddress, plan.amount, MemoBytes(plan.memo), owned, v, d) {
      FilterOnly(os, pays, v);
      FilterOnly(os, carries, d);
      forall i | 0 <= i < |os| ensures Accounted(os[i], plan.inboundAddress, owned) {
      }
    }
  }

  /** Output `v` pays the recipient the exact amount, nothing carries data, and everything else comes back to us. */
  ghost predicate PlainSend(os: seq<TxOutput>, payee: string, amount: int, owned: set<string>, v: nat) {
    && Only(os, (o: TxOutput) => o.address == Some(payee), v) && os[v].value == amount
    && (forall i :: 0 <= i < |os| ==> os[i].opReturnData.None?)
    && forall i :: 0 <= i < |os| && i != v ==> os[i].address.Some? && os[i].address.value in owned
  }

  /**
   * The send gate passes exactly the transactions that pay the recipient once,
   * the exact amount, carry no data, return everything else, and keep the fee
   * within its limit.
   */
  lemma SendGateMeans(os: seq<TxOutput>, fee: int, plan: SendPlan, owned: set<string>, maxFee: int)
    ensures SendProblems(os, fee, plan, owned, maxFee) == [] <==>
            0 <= fee <= maxFee && exists v :: PlainSend(os, plan.recipient, plan.amount, owned, v)
  {
    var pays := (o: TxOutput) => o.address == Some(plan.recipient);
    ChangeProblemsNone(os, plan.recipient, owned);
    FilterNone(os, (o: TxOutput) => o.opReturnData.Some?);
    if SendProblems(os, fee, plan, owned, maxFee) == [] {
      var v := OnlyOfFilter(os, pays);
      forall i | 0 <= i < |os| && i != v ensures os[i].address.Some? && os[i].address.value in owned {
        assert Accounted(os[i], plan.recipient, owned) && !pays(os[i]);
      }
      assert PlainSend(os, plan.recipient, plan.amount, owned, v);
    }
    if v :| PlainSend(os, plan.recipient, plan.amount, owned, v) {
      FilterOnly(os, pays, v);
      forall i | 0 <= i < |os| ensures Accounted(os[i], plan.recipient, owned) {
      }
    }
  }

  /** Comparing the decoded text is comparing the bytes. */
  lemma MemoComparison(memo: Memo)
    ensures forall data: seq<byte> :: memo.Text? ==>
              (Utf8.Decode(data) == Some(memo.text) <==> data == MemoBytes(memo))
  {
    if memo.Text? {
      Utf8.DecodeOfEncode(memo.text);
      forall data: seq<byte> | Utf8.Decode(data) == Some(memo.text) ensures data == MemoBytes(memo) {
        Utf8.EncodeOfDecode(data);
      }
    }
  }

  // --- what each problem means ----------------------------------------------

  /** The outputs satisfying `p`, by index. */
  function Those(os: seq<TxOutput>, p: TxOutput -> bool): set<nat> { set i: nat | i < |os| && p(os[i]) }

  lemma {:induction false} FilterCount(os: seq<TxOutput>, p: TxOutput -> bool)
    ensures |Filter(os, p)| == |Those(os, p)|
  {
    if os == [] {
      assert Those(os, p) == {};
    } else {
      var n := |os| - 1;
      FilterCount(os[..n], p);
      FilterLast(os[..n], os[n], p);
      assert os == os[..n] + [os[n]];
      assert Those(os, p) == Those(os[..n], p) + if p(os[n]) then {n} else {};
    }
  }

  lemma {:induction false} FilterLast(os: seq<TxOutput>, o: TxOutput, p: TxOutput -> bool)
    ensures Filter(os + [o], p) == Filter(os, p) + if p(o) then [o] else []
  {
    if os == [] {
      assert [o][1..] == [] && [] + [o] == [o];
    } else {
      FilterLast(os[1..], o, p);
      assert (os + [o])[1..] == os[1..] + [o];
    }
  }

  lemma {:induction false} ForeignChangeMeans(os: seq<TxOutput>, payee: string, owned: set<string>, x: Problem)
    ensures x in ChangeProblems(os, payee, owned) <==>
            x.ForeignChange?
            && exists i :: 0 <= i < |os| && !Accounted(os[i], payee, owned) && os[i].address == x.address
  {
    if os != [] {
      ForeignChangeMeans(os[1..], payee, owned, x);
      if x.ForeignChange? {
        if i :| 0 <= i < |os| && !Accounted(os[i], payee, owned) && os[i].address == x.address {
          if i > 0 { assert os[1..][i - 1] == os[i]; }
        }
        if i :| 0 <= i < |os[1..]| && !Accounted(os[1..][i], payee, owned) && os[1..][i].address == x.address {
          assert os[i + 1] == os[1..][i];
        }
      }
    }
  }

  /** The payee's problem: how many outputs pay it, or the amount of the only one. */
  lemma PayeeReports(os: seq<TxOutput>, payee: string, amount: int, x: Problem)
    ensures var n := |Those(os, (o: TxOutput) => o.address == Some(payee))|;
            x in PayeeProblems(os, payee, amount) <==>
              || (x == PayeeCount(n) && n != 1)
              || (x == PayeeAmount && n == 1
                  && exists v: nat :: Only(os, (o: TxOutput) => o.address == Some(payee), v)
                                    && os[v].value != amount)
  {
    var pays := (o: TxOutput) => o.address == Some(payee);
    FilterCount(os, pays);
    if |Filter(os, pays)| == 1 {
      var v := OnlyOfFilter(os, pays);
    }
  }

  /** The memo's: how many outputs carry data, or what is wrong with the only one's. */
  lemma MemoReports(os: seq<TxOutput>, memo: Memo, memoMax: nat, x: Problem)
    ensures var n := |Those(os, (o: TxOutput) => o.opReturnData.Some?)|;
            x in MemoProblems(os, memo, memoMax) <==>
              || (x == MemoCount(n) && n != 1)
              || (n == 1 && exists d: nat :: Only(os, (o: TxOutput) => o.opReturnData.Some?, d)
                                            && WrongMemo(os[d].opReturnData.value, memo, memoMax, x))
  {
    var carries := (o: TxOutput) => o.opReturnData.Some?;
    FilterCount(os, carries);
    MemoComparison(memo);
    if |Filter(os, carries)| == 1 {
      var d := OnlyOfFilter(os, carries);
    }
  }

  /** `x` is what is wrong with this payload. */
  predicate WrongMemo(data: seq<byte>, memo: Memo, memoMax: nat, x: Problem) {
    || (x == MemoTooLong && |data| > memoMax)
    || (x == MemoMismatch && data != MemoBytes(memo) && (memo.Text? ==> Utf8.Decode(data).Some?))
    || (x == MemoNotUtf8 && memo.Text? && Utf8.Decode(data).None?)
  }

  predicate WrongFee(fee: int, maxFee: int, x: Problem) {
    (x == NegativeFee && fee < 0) || (x == FeeTooHigh && 0 <= fee && maxFee < fee)
  }

  /** The swap gate reports each problem there is, and no other. */
  lemma SwapReports(os: seq<TxOutput>, fee: int, plan: SwapPlan, owned: set<string>, now: int, maxFee: int,
                    memoMax: nat, x: Problem)
    ensures x in SwapProblems(os, fee, plan, owned, now, maxFee, memoMax) <==>
              || (x == Expired && plan.expiry <= now)
              || x in PayeeProblems(os, plan.inboundAddress, plan.amount)
              || x in MemoProblems(os, plan.memo, memoMax)
              || (x.ForeignChange? && exists i :: 0 <= i < |os| && !Accounted(os[i], plan.inboundAddress, owned)
                                                  && os[i].address == x.address)
              || (x == DestinationNotPaid && !NamesDestination(plan.destination, plan.memo))
              || WrongFee(fee, maxFee, x)
  {
    ForeignChangeMeans(os, plan.inboundAddress, owned, x);
    MemoPaysMeans(plan.destination, plan.memo);
  }
}
