/** Why a paged walk that was not raced has the whole list: no gap, no repeat. */
module PagingSafety {
  import opened Common
  import opened Chain
  import opened Paging

  /** The explorer's list for one address, at each moment. */
  type Lists = nat -> seq<TxSummary>

  /** Newest first, so whatever arrives is prepended; nothing is ever removed or reordered. */
  ghost predicate GrowsAtFront(lists: Lists) {
    forall s: nat, t: nat :: t == s + 1 ==> EndsWith(lists(t), lists(s))
  }

  predicate EndsWith(a: seq<TxSummary>, b: seq<TxSummary>) {
    |b| <= |a| && a[|a| - |b|..] == b
  }

  /** Insight answers with a non-empty part of the window while there is any, and the current length. */
  ghost predicate FaithfulInsight(window: (nat, nat, nat) -> Answer<InsightBody>, lists: Lists) {
    forall t: nat, lo: nat, hi: nat :: window(t, lo, hi).Body? && lo < hi ==>
      var b, l := window(t, lo, hi).body, lists(t);
      b.totalItems == Some(|l|)
      && if lo < |l| then 1 <= |b.items| <= |l| - lo && |b.items| <= hi - lo && b.items == l[lo..lo + |b.items|]
         else b.items == []
  }

  /**
   * Blockbook answers with the numbered page, its counters adding up to the
   * current length; past the end it repeats transactions of the list, and if
   * it says how many pages there are, they hold everything.
   */
  ghost predicate FaithfulBlockbook(page: (nat, nat, nat) -> Answer<BlockbookBody>, lists: Lists) {
    forall t: nat, n: nat :: page(t, n, BLOCKBOOK_TX_PAGE).Body? && n >= 1 ==>
      var b, l, lo := page(t, n, BLOCKBOOK_TX_PAGE).body, lists(t), (n - 1) * BLOCKBOOK_TX_PAGE;
      b.txs.Some? && b.txs.value + b.unconfirmedTxs == |l|
      && b.totalPages >= 0 && (b.totalPages > 0 ==> b.totalPages * BLOCKBOOK_TX_PAGE >= |l|)
      && if lo < |l| then b.transactions == Slice(l, lo, lo + BLOCKBOOK_TX_PAGE)
         else forall x :: x in b.transactions ==> x in l
  }

  ghost predicate Faithful(host: Host, lists: Lists) {
    match host
    case Insight(window) => FaithfulInsight(window, lists)
    case Blockbook(page) => FaithfulBlockbook(page, lists)
  }

  // --- the two APIs, seen alike ---------------------------------------------

  /** How many transactions precede the page a cursor names. */
  function Position(host: Host, cursor: Option<nat>): nat {
    match host
    case Insight(_) => if cursor.Some? then cursor.value else 0
    case Blockbook(_) => if cursor.Some? && cursor.value != 0 then (cursor.value - 1) * BLOCKBOOK_TX_PAGE else 0
  }

  function Count(t: Total): int {
    match t case Items(n) => n case Counts(txs, unconfirmed) => txs + unconfirmed
  }

  /** Where each cursor stands in the list. */
  type Positions = Option<nat> -> nat

  /** A page of `l` from `pos`: the next part of the list, or nothing new past its end. */
  ghost predicate PageOf(at: Positions, l: seq<TxSummary>, pos: nat, p: Page) {
    && p.total.Some? && Count(p.total.value) == |l|
    && (pos < |l| ==> p.txs != [] && |p.txs| <= |l| - pos && p.txs == l[pos..pos + |p.txs|])
    && (pos >= |l| ==> forall x :: x in p.txs ==> x in l)
    && (pos < |l| && p.following.None? ==> pos + |p.txs| == |l|)
    && (pos < |l| && p.following.Some? ==>
          at(p.following) == pos + |p.txs| || (pos + |p.txs| == |l| && at(p.following) >= |l|))
  }

  ghost predicate ServedAt(fetch: Fetch, at: Positions, lists: Lists, moment: nat, cursor: Option<nat>) {
    fetch(moment, cursor).Body? ==> PageOf(at, lists(moment), at(cursor), fetch(moment, cursor).body)
  }

  ghost predicate PagesOf(fetch: Fetch, at: Positions, lists: Lists) {
    at(None) == 0 && forall moment, cursor :: ServedAt(fetch, at, lists, moment, cursor)
  }

  /** Both APIs serve pages of the list, each with its own kind of cursor. */
  lemma FaithfulServesPages(host: Host, lists: Lists) returns (at: Positions)
    requires Faithful(host, lists)
    ensures PagesOf(FetchOf(host), at, lists)
  {
    at := (cursor: Option<nat>) => Position(host, cursor);
    var fetch := FetchOf(host);
    forall moment: nat, cursor: Option<nat> ensures ServedAt(fetch, at, lists, moment, cursor) {
      if fetch(moment, cursor).Body? { ServedPage(host, lists, moment, cursor, at); }
    }
  }

  lemma ServedPage(host: Host, lists: Lists, moment: nat, cursor: Option<nat>, at: Positions)
    requires Faithful(host, lists) && FetchOf(host)(moment, cursor).Body?
    requires forall c :: at(c) == Position(host, c)
    ensures PageOf(at, lists(moment), at(cursor), FetchOf(host)(moment, cursor).body)
  {
    match host {
      case Insight(window) =>
        var start := if cursor.Some? then cursor.value else 0;
        assert window(moment, start, start + INSIGHT_TX_PAGE).Body?;
      case Blockbook(page) =>
        var number := if cursor.Some? && cursor.value != 0 then cursor.value else 1;
        var b := page(moment, number, BLOCKBOOK_TX_PAGE).body;
        assert page(moment, number, BLOCKBOOK_TX_PAGE).Body?;
        if b.totalPages > 0 && number >= b.totalPages {
          assert number * BLOCKBOOK_TX_PAGE >= b.totalPages * BLOCKBOOK_TX_PAGE;
        }
    }
  }

  // --- a list of unchanged length is unchanged -------------------------------

  lemma {:induction false} LaterEndsWith(lists: Lists, s: nat, t: nat)
    requires GrowsAtFront(lists) && s <= t
    ensures EndsWith(lists(t), lists(s))
    decreases t - s
  {
    if s < t {
      LaterEndsWith(lists, s, t - 1);
      var a, b, c := lists(t), lists(t - 1), lists(s);
      assert a[|a| - |c|..] == b[|b| - |c|..];
    }
  }

  lemma SameLengthSameList(lists: Lists, s: nat, t: nat)
    requires GrowsAtFront(lists) && s <= t && |lists(s)| == |lists(t)|
    ensures forall u :: s <= u <= t ==> lists(u) == lists(s)
  {
    forall u | s <= u <= t ensures lists(u) == lists(s) {
      LaterEndsWith(lists, s, u);
      LaterEndsWith(lists, u, t);
      assert lists(u)[0..] == lists(u);
    }
  }

  // --- what a page adds -----------------------------------------------------

  lemma {:induction false} UnseenAll(page: seq<TxSummary>, seen: set<string>)
    requires forall i :: 0 <= i < |page| ==> page[i].txid !in seen
    ensures Unseen(page, seen) == page
  {
    if page != [] {
      UnseenAll(page[1..], seen);
      assert page == [page[0]] + page[1..];
    }
  }

  lemma {:induction false} UnseenNone(page: seq<TxSummary>, seen: set<string>)
    requires forall i :: 0 <= i < |page| ==> page[i].txid in seen
    ensures Unseen(page, seen) == []
  {
    if page != [] { UnseenNone(page[1..], seen); }
  }

  lemma NextPartUnseen(l: seq<TxSummary>, pos: nat, k: nat)
    requires DistinctIds(l) && pos + k <= |l|
    ensures Unseen(l[pos..pos + k], Seen(l[..pos])) == l[pos..pos + k]
    ensures l[..pos] + l[pos..pos + k] == l[..pos + k]
  {
    var page := l[pos..pos + k];
    forall i | 0 <= i < |page| ensures page[i].txid !in Seen(l[..pos]) {
      assert page[i] == l[pos + i];
    }
    UnseenAll(page, Seen(l[..pos]));
  }

  lemma RepeatsSeen(l: seq<TxSummary>, page: seq<TxSummary>)
    requires forall x :: x in page ==> x in l
    ensures Unseen(page, Seen(l)) == []
  {
    forall i | 0 <= i < |page| ensures page[i].txid in Seen(l) {
      assert page[i] in l;
    }
    UnseenNone(page, Seen(l));
  }

  // --- the walk -------------------------------------------------------------

  /** The list up to a position. */
  function Upto(l: seq<TxSummary>, pos: nat): seq<TxSummary> { l[..if pos <= |l| then pos else |l|] }

  /** Nothing requested yet, or the list as it stood at `start` collected up to the cursor. */
  ghost predicate InWalk(at: Positions, lists: Lists, start: nat, clock: nat, reported: Option<Total>,
                         txs: seq<TxSummary>, cursor: Option<nat>)
  {
    var l, pos := lists(start), at(cursor);
    start <= clock && txs == Upto(l, pos)
    && (reported.None? ==> start == clock) && (reported.Some? ==> Count(reported.value) == |l|)
  }

  ghost predicate Whole(lists: Lists, start: nat, o: Outcome) {
    o.Walked? && !o.raced && !o.result.truncated ==>
      start < o.clock && o.result.transactions == lists(start) && StoodFrom(lists, lists(start), start, o.clock)
  }

  lemma {:induction false} WalkIsWhole(fetch: Fetch, at: Positions, lists: Lists, start: nat, clock: nat,
                                       reported: Option<Total>, txs: seq<TxSummary>, cursor: Option<nat>, limit: nat)
    requires GrowsAtFront(lists) && PagesOf(fetch, at, lists) && (forall t: nat :: DistinctIds(lists(t)))
    requires InWalk(at, lists, start, clock, reported, txs, cursor)
    ensures Whole(lists, start, Walk(fetch, clock, reported, txs, cursor, limit))
    decreases limit - |txs|
  {
    var answer := fetch(clock, cursor);
    assert ServedAt(fetch, at, lists, clock, cursor);
    if answer.Body? && (reported.None? || answer.body.total == reported) {
      var page := answer.body;
      PageKeepsWalk(fetch, at, lists, start, clock, reported, txs, cursor);
      var added := Unseen(page.txs, Seen(txs));
      if added != [] && page.following.Some? && |txs + added| < limit {
        WalkIsWhole(fetch, at, lists, start, clock + 1, page.total, txs + added, page.following, limit);
      }
      WalkStep(fetch, lists, start, clock, reported, txs, cursor, limit, page, added);
    }
  }

  /** A walk that ends with this page, or goes on after it, is whole if the page left it so. */
  lemma WalkStep(fetch: Fetch, lists: Lists, start: nat, clock: nat, reported: Option<Total>, txs: seq<TxSummary>,
                 cursor: Option<nat>, limit: nat, page: Page, added: seq<TxSummary>)
    requires start <= clock && fetch(clock, cursor) == Body(page) && added == Unseen(page.txs, Seen(txs))
    requires page.total.Some? && (reported.None? || page.total == reported)
    requires StoodFrom(lists, lists(start), start, clock + 1)
    requires added == [] ==> txs == lists(start)
    requires page.following.None? ==> txs + added == lists(start)
    requires added != [] && page.following.Some? && |txs + added| < limit ==>
               Whole(lists, start, Walk(fetch, clock + 1, page.total, txs + added, page.following, limit))
    ensures Whole(lists, start, Walk(fetch, clock, reported, txs, cursor, limit))
  {
    if added == [] { assert txs + added == txs; }
  }

  /** A page that agrees on the length extends the walk, or shows that it had everything. */
  lemma PageKeepsWalk(fetch: Fetch, at: Positions, lists: Lists, start: nat, clock: nat,
                      reported: Option<Total>, txs: seq<TxSummary>, cursor: Option<nat>)
    requires GrowsAtFront(lists) && PagesOf(fetch, at, lists) && forall t: nat :: DistinctIds(lists(t))
    requires InWalk(at, lists, start, clock, reported, txs, cursor)
    requires fetch(clock, cursor).Body?
    requires reported.None? || fetch(clock, cursor).body.total == reported
    ensures forall u :: start <= u <= clock ==> lists(u) == lists(start)
    ensures var page := fetch(clock, cursor).body;
            var added := Unseen(page.txs, Seen(txs));
            page.total.Some?
            && (added == [] ==> txs == lists(start))
            && (page.following.None? ==> txs + added == lists(start))
            && (page.following.Some? && added != [] ==>
                  InWalk(at, lists, start, clock + 1, page.total, txs + added, page.following))
  {
    assert ServedAt(fetch, at, lists, clock, cursor);
    SameLengthSameList(lists, start, clock);
    PageAdds(lists(start), at, at(cursor), fetch(clock, cursor).body, txs);
  }

  lemma PageAdds(l: seq<TxSummary>, at: Positions, pos: nat, page: Page, txs: seq<TxSummary>)
    requires DistinctIds(l) && PageOf(at, l, pos, page) && txs == Upto(l, pos)
    ensures var added := Unseen(page.txs, Seen(txs));
            && txs + added <= l
            && (added == [] ==> txs == l)
            && (page.following.None? ==> txs + added == l)
            && (page.following.Some? && added != [] ==> txs + added == Upto(l, at(page.following)))
  {
    if pos < |l| {
      NextPartUnseen(l, pos, |page.txs|);
    } else {
      assert txs == l;
      RepeatsSeen(l, page.txs);
      assert txs + [] == l;
    }
  }

  lemma {:induction false} AttemptsAreWhole(fetch: Fetch, at: Positions, lists: Lists, clock: nat, last: seq<TxSummary>,
                                            limit: nat, left: nat)
    requires GrowsAtFront(lists) && PagesOf(fetch, at, lists) && forall t: nat :: DistinctIds(lists(t))
    ensures var o := Attempts(fetch, clock, last, limit, left);
            o.Walked? && !o.result.truncated ==> WholeListAt(lists, o.result.transactions, clock, o.clock)
    decreases left
  {
    if left > 0 {
      WalkBounded(fetch, clock, None, [], None, limit);
      WalkIsWhole(fetch, at, lists, clock, clock, None, [], None, limit);
      var w := Walk(fetch, clock, None, [], None, limit);
      if w.Walked? && w.raced {
        AttemptsAreWhole(fetch, at, lists, w.clock, w.result.transactions, limit, left - 1);
        var o := Attempts(fetch, clock, last, limit, left);
        if o.Walked? && !o.result.truncated {
          var s: nat :| w.clock <= s < o.clock && StoodFrom(lists, o.result.transactions, s, o.clock);
          assert StoodFrom(lists, o.result.transactions, s, o.clock);
        }
      } else if w.Walked? && !w.result.truncated {
        assert StoodFrom(lists, w.result.transactions, clock, w.clock);
      }
    }
  }

  /** The list was exactly `txs` at every moment from `s` up to `until`. */
  ghost predicate StoodFrom(lists: Lists, txs: seq<TxSummary>, s: nat, until: nat) {
    forall u :: s <= u < until ==> lists(u) == txs
  }

  /** ...from the start of the last walk, some moment in the range, to its end. */
  ghost predicate WholeListAt(lists: Lists, txs: seq<TxSummary>, from: nat, until: nat) {
    exists s: nat :: from <= s < until && StoodFrom(lists, txs, s, until)
  }

  /**
   * An answer not called truncated is the explorer's whole list, no gap and
   * no repeat, as it stood throughout the last walk; at most three walks of at
   * most `limit` requests (one, if the limit is zero) were made.
   */
  lemma UntruncatedIsWhole(host: Host, lists: Lists, clock: nat, limit: nat)
    requires GrowsAtFront(lists) && Faithful(host, lists) && forall t: nat :: DistinctIds(lists(t))
    ensures var o := AttemptsOn(host, clock, limit);
            o.clock <= clock + 3 * Max(1, limit)
            && (o.Walked? && !o.result.truncated ==>
                  WholeListAt(lists, o.result.transactions, clock, o.clock) && DistinctIds(o.result.transactions))
  {
    var at := FaithfulServesPages(host, lists);
    AttemptsClock(FetchOf(host), clock, [], limit, INSIGHT_WALK_ATTEMPTS);
    AttemptsAreWhole(FetchOf(host), at, lists, clock, [], limit, INSIGHT_WALK_ATTEMPTS);
    var o := AttemptsOn(host, clock, limit);
    if o.Walked? && !o.result.truncated {
      var s: nat :| clock <= s < o.clock && StoodFrom(lists, o.result.transactions, s, o.clock);
      assert lists(s) == o.result.transactions;
    }
  }

  // --- an answer that is whole is given -------------------------------------

  /** From a moment on, every request is answered. */
  ghost predicate AnswersFrom(host: Host, from: nat) {
    forall t: nat, cursor: Option<nat> :: t >= from ==> FetchOf(host)(t, cursor).Body?
  }

  /** From a moment on the explorer answers, and neither its list nor what it counts moves. */
  ghost predicate StandsFrom(host: Host, lists: Lists, from: nat, l: seq<TxSummary>, total: Option<Total>) {
    && AnswersFrom(host, from)
    && (forall t: nat :: t >= from ==> lists(t) == l)
    && (forall t: nat, cursor: Option<nat> :: t >= from ==> Reports(FetchOf(host)(t, cursor), total))
  }

  predicate Reports(answer: Answer<Page>, total: Option<Total>) { answer.Body? ==> answer.body.total == total }

  /** Insight's count is the length, so it stands still whenever the list does. */
  lemma InsightStands(host: Host, lists: Lists, from: nat, l: seq<TxSummary>)
    requires host.Insight? && Faithful(host, lists) && AnswersFrom(host, from)
    requires forall t: nat :: t >= from ==> lists(t) == l
    ensures StandsFrom(host, lists, from, l, Some(Items(|l|)))
  {
    forall t: nat, cursor: Option<nat> | t >= from ensures Reports(FetchOf(host)(t, cursor), Some(Items(|l|))) {
      var start := if cursor.Some? then cursor.value else 0;
      assert FetchOf(host)(t, cursor).Body?;
      assert host.window(t, start, start + INSIGHT_TX_PAGE).Body?;
    }
  }

  /** The list, or as much of it as may be collected. */
  function Collected(l: seq<TxSummary>, limit: nat): AddressTxs {
    if |l| < limit then AddressTxs(l, false) else AddressTxs(l[..limit], true)
  }

  lemma {:induction false} StandingWalk(host: Host, at: Positions, lists: Lists, clock: nat, l: seq<TxSummary>,
                                        total: Option<Total>, reported: Option<Total>, txs: seq<TxSummary>,
                                        cursor: Option<nat>, limit: nat)
    requires PagesOf(FetchOf(host), at, lists) && DistinctIds(l) && StandsFrom(host, lists, clock, l, total)
    requires reported.None? || reported == total
    requires txs == Upto(l, at(cursor)) && (|txs| < limit || txs == [])
    ensures var o := Walk(FetchOf(host), clock, reported, txs, cursor, limit);
            o == Walked(Collected(l, limit), false, o.clock)
    decreases limit - |txs|
  {
    var fetch := FetchOf(host);
    var answer := fetch(clock, cursor);
    assert answer.Body? && Reports(answer, total);
    assert ServedAt(fetch, at, lists, clock, cursor);
    var page, added := answer.body, Unseen(answer.body.txs, Seen(txs));
    PageAdds(l, at, at(cursor), page, txs);
    if added == [] { assert txs + added == txs; }
    if |txs + added| < limit && page.following.Some? && added != [] {
      StandingWalk(host, at, lists, clock + 1, l, total, page.total, txs + added, page.following, limit);
    }
    StandingStep(fetch, clock, l, reported, txs, cursor, limit, page, added);
  }

  /** A walk that ends with this page has the whole list or its beginning; one that goes on ends as the rest does. */
  lemma StandingStep(fetch: Fetch, clock: nat, l: seq<TxSummary>, reported: Option<Total>, txs: seq<TxSummary>,
                     cursor: Option<nat>, limit: nat, page: Page, added: seq<TxSummary>)
    requires fetch(clock, cursor) == Body(page) && added == Unseen(page.txs, Seen(txs))
    requires reported.None? || page.total == reported
    requires txs + added <= l && (added == [] || page.following.None? ==> txs + added == l)
    requires |txs + added| < limit && page.following.Some? && added != [] ==>
               var o := Walk(fetch, clock + 1, page.total, txs + added, page.following, limit);
               o == Walked(Collected(l, limit), false, o.clock)
    ensures var o := Walk(fetch, clock, reported, txs, cursor, limit);
            o == Walked(Collected(l, limit), false, o.clock)
  {
    var all := txs + added;
    if |all| >= limit { assert all[..limit] == l[..limit]; }
  }

  /**
   * While the explorer answers and its list stands still, the answer is the whole
   * list and is not called truncated, if it is shorter than the limit; otherwise
   * it is as much of it as the limit allows, and is called truncated.
   */
  lemma StandingIsWhole(host: Host, lists: Lists, clock: nat, l: seq<TxSummary>, total: Option<Total>, limit: nat)
    requires Faithful(host, lists) && DistinctIds(l) && StandsFrom(host, lists, clock, l, total)
    ensures var o := AttemptsOn(host, clock, limit);
            o == Walked(if |l| < limit then AddressTxs(l, false) else AddressTxs(l[..limit], true), false, o.clock)
  {
    var at := FaithfulServesPages(host, lists);
    StandingWalk(host, at, lists, clock, l, total, None, [], None, limit);
  }

  /** A walk that ended, and calls itself truncated only if it was raced. */
  predicate Ended(o: Outcome) { o.Walked? && (!o.raced ==> !o.result.truncated) }

  /** A walk that is always answered ends so, if its list is shorter than the limit. */
  lemma {:induction false} AnsweredWalk(host: Host, at: Positions, lists: Lists, start: nat, clock: nat,
                                        reported: Option<Total>, txs: seq<TxSummary>, cursor: Option<nat>, limit: nat)
    requires GrowsAtFront(lists) && PagesOf(FetchOf(host), at, lists) && (forall t: nat :: DistinctIds(lists(t)))
    requires InWalk(at, lists, start, clock, reported, txs, cursor)
    requires AnswersFrom(host, clock) && |lists(start)| < limit
    ensures Ended(Walk(FetchOf(host), clock, reported, txs, cursor, limit))
    decreases limit - |txs|
  {
    var fetch := FetchOf(host);
    var answer := fetch(clock, cursor);
    assert answer.Body?;
    assert ServedAt(fetch, at, lists, clock, cursor);
    var page, added := answer.body, Unseen(answer.body.txs, Seen(txs));
    if reported.None? || page.total == reported {
      PageKeepsWalk(fetch, at, lists, start, clock, reported, txs, cursor);
      PageAdds(lists(start), at, at(cursor), page, txs);
      if page.following.Some? && added != [] {
        AnsweredWalk(host, at, lists, start, clock + 1, page.total, txs + added, page.following, limit);
      }
    }
    AnsweredStep(fetch, clock, reported, txs, cursor, limit, page, added);
  }

  lemma AnsweredStep(fetch: Fetch, clock: nat, reported: Option<Total>, txs: seq<TxSummary>, cursor: Option<nat>,
                     limit: nat, page: Page, added: seq<TxSummary>)
    requires fetch(clock, cursor) == Body(page) && added == Unseen(page.txs, Seen(txs)) && page.total.Some?
    requires reported.None? || page.total == reported ==>
               && |txs + added| < limit
               && (page.following.Some? && added != [] ==>
                     Ended(Walk(fetch, clock + 1, page.total, txs + added, page.following, limit)))
    ensures Ended(Walk(fetch, clock, reported, txs, cursor, limit))
  {
  }

  /**
   * If transactions arrive during the first walk only, the answer is whole and
   * not called truncated: the list the explorer has from then on, or, if the walk
   * did not notice, the one it had throughout that walk.
   */
  lemma RetryIsWhole(host: Host, lists: Lists, clock: nat, l: seq<TxSummary>, total: Option<Total>, limit: nat)
    requires GrowsAtFront(lists) && Faithful(host, lists) && forall t: nat :: DistinctIds(lists(t))
    requires AnswersFrom(host, clock) && |lists(clock)| < limit && |l| < limit
    requires StandsFrom(host, lists, Walk(FetchOf(host), clock, None, [], None, limit).clock, l, total)
    ensures var first, o := Walk(FetchOf(host), clock, None, [], None, limit), AttemptsOn(host, clock, limit);
            && first.Walked?
            && o == Walked(AddressTxs(if first.raced then l else lists(clock), false), false, o.clock)
            && (!first.raced ==> StoodFrom(lists, lists(clock), clock, first.clock))
  {
    var fetch := FetchOf(host);
    var at := FaithfulServesPages(host, lists);
    AnsweredWalk(host, at, lists, clock, clock, None, [], None, limit);
    WalkIsWhole(fetch, at, lists, clock, clock, None, [], None, limit);
    var first := Walk(fetch, clock, None, [], None, limit);
    if first.raced {
      assert lists(first.clock) == l;
      StandingWalk(host, at, lists, first.clock, l, total, None, [], None, limit);
    }
  }
}
