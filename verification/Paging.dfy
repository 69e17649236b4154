/** Walking an address's paged history over a list that can move between requests. */
module Paging {
  import opened Common
  import opened Chain

  const INSIGHT_TX_PAGE: nat := 50
  const BLOCKBOOK_TX_PAGE: nat := 100
  const INSIGHT_WALK_ATTEMPTS: nat := 3

  // --- what an explorer can answer ------------------------------------------

  datatype Answer<T> = Body(body: T) | RateLimited | Down

  datatype InsightBody = InsightBody(items: seq<TxSummary>, totalItems: Option<int>)

  datatype BlockbookBody = BlockbookBody(transactions: seq<TxSummary>, txs: Option<int>, unconfirmedTxs: int,
                                         totalPages: int)

  /** An endpoint: what it answers to the request made at each moment. */
  datatype Host =
    | Insight(window: (nat, nat, nat) -> Answer<InsightBody>)       // moment, from, to
    | Blockbook(page: (nat, nat, nat) -> Answer<BlockbookBody>)     // moment, page number, page size

  datatype Total = Items(items: int) | Counts(txs: int, unconfirmed: int)

  /** One page as the walk sees it: its transactions, the reported total, the next cursor. */
  datatype Page = Page(txs: seq<TxSummary>, total: Option<Total>, following: Option<nat>)

  function InsightPage(window: (nat, nat, nat) -> Answer<InsightBody>, moment: nat, cursor: Option<nat>): Answer<Page> {
    var start := if cursor.Some? then cursor.value else 0;
    match window(moment, start, start + INSIGHT_TX_PAGE)
    case Body(b) =>
      Body(Page(b.items, if b.totalItems.Some? then Some(Items(b.totalItems.value)) else None, Some(start + |b.items|)))
    case RateLimited => RateLimited
    case Down => Down
  }

  function BlockbookPage(page: (nat, nat, nat) -> Answer<BlockbookBody>, moment: nat, cursor: Option<nat>)
    : Answer<Page>
  {
    var number := if cursor.Some? && cursor.value != 0 then cursor.value else 1;
    match page(moment, number, BLOCKBOOK_TX_PAGE)
    case Body(b) =>
      Body(Page(b.transactions, if b.txs.Some? then Some(Counts(b.txs.value, b.unconfirmedTxs)) else None,
                if number < b.totalPages || b.totalPages == 0 then Some(number + 1) else None))
    case RateLimited => RateLimited
    case Down => Down
  }

  /** `_insight_page` or `_blockbook_page`: the request made at a moment for a cursor. */
  type Fetch = (nat, Option<nat>) -> Answer<Page>

  function FetchOf(host: Host): Fetch {
    match host
    case Insight(window) => (moment: nat, cursor: Option<nat>) => InsightPage(window, moment, cursor)
    case Blockbook(page) => (moment: nat, cursor: Option<nat>) => BlockbookPage(page, moment, cursor)
  }

  // --- one walk -------------------------------------------------------------

  function Seen(txs: seq<TxSummary>): set<string> { set i | 0 <= i < |txs| :: txs[i].txid }

  function Unseen(page: seq<TxSummary>, seen: set<string>): seq<TxSummary> {
    if page == [] then []
    else (if page[0].txid in seen then [] else [page[0]]) + Unseen(page[1..], seen)
  }

  /** How a walk ends: what it collected, whether it was raced, and when. */
  datatype Outcome = Walked(result: AddressTxs, raced: bool, clock: nat) | Failed(clock: nat)

  /**
   * The rest of a walk from its state: `reported` is the first total seen,
   * `txs` what was collected so far. A page disagreeing with `reported` counts
   * as an empty last page and marks the walk as raced.
   */
  function Walk(fetch: Fetch, clock: nat, reported: Option<Total>, txs: seq<TxSummary>, cursor: Option<nat>, limit: nat)
    : Outcome
    decreases limit - |txs|
  {
    match fetch(clock, cursor)
    case Down => Failed(clock + 1)
    case RateLimited => Walked(AddressTxs(txs, true), false, clock + 1)
    case Body(page) =>
      if page.total.Some? && reported.Some? && page.total != reported then
        if |txs| >= limit then Walked(AddressTxs(txs[..limit], true), true, clock + 1)
        else Walked(AddressTxs(txs, false), true, clock + 1)
      else
        var added := Unseen(page.txs, Seen(txs));
        var all := txs + added;
        if |all| >= limit then Walked(AddressTxs(all[..limit], true), false, clock + 1)
        else if page.following.None? || added == [] then Walked(AddressTxs(all, false), false, clock + 1)
        else Walk(fetch, clock + 1, if reported.Some? then reported else page.total, all, page.following, limit)
  }

  /** The attempts `address_txs` makes on one endpoint, with `left` to go. */
  function Attempts(fetch: Fetch, clock: nat, last: seq<TxSummary>, limit: nat, left: nat): Outcome
    decreases left
  {
    if left == 0 then Walked(AddressTxs(last, true), true, clock)
    else
      var w := Walk(fetch, clock, None, [], None, limit);
      if w.Failed? || !w.raced then w
      else Attempts(fetch, w.clock, w.result.transactions, limit, left - 1)
  }

  // --- the adapter's state --------------------------------------------------

  /** One pass over the pages: `_walk_address`, whose closure updates these fields. */
  class Attempt {
    const fetch: Fetch
    var clock: nat
    var reported: Option<Total>
    var raced: bool

    constructor (fetch: Fetch, clock: nat)
      ensures this.fetch == fetch && this.clock == clock && reported == None && !raced
    {
      this.fetch, this.clock, reported, raced := fetch, clock, None, false;
    }

    /** The `page` closure. */
    method NextPage(cursor: Option<nat>) returns (r: Answer<(seq<TxSummary>, Option<nat>)>)
      modifies this
      ensures clock == old(clock) + 1
      ensures var a := fetch(old(clock), cursor);
              match a
              case Down => r == Down && reported == old(reported) && raced == old(raced)
              case RateLimited => r == RateLimited && reported == old(reported) && raced == old(raced)
              case Body(p) =>
                if p.total.Some? && old(reported).Some? && p.total != old(reported)
                then r == Body(([], None)) && reported == old(reported) && raced
                else r == Body((p.txs, p.following)) && raced == old(raced)
                     && reported == if old(reported).Some? then old(reported) else p.total
    {
      var a := fetch(clock, cursor);
      clock := clock + 1;
      match a {
        case Down => return Down;
        case RateLimited => return RateLimited;
        case Body(p) =>
          if p.total.Some? {
            if reported.None? {
              reported := p.total;
            } else if p.total != reported {
              raced := true;
              return Body(([], None));
            }
          }
          return Body((p.txs, p.following));
      }
    }

    /** `collect_pages` over this walk's pages; no answer means the endpoint went down. */
    method CollectPages(limit: nat) returns (r: Option<AddressTxs>)
      requires reported == None && !raced
      modifies this
      ensures Walk(fetch, old(clock), None, [], None, limit)
              == if r.None? then Failed(clock) else Walked(r.value, raced, clock)
    {
      var seen: set<string> := {};
      var txs: seq<TxSummary> := [];
      var cursor: Option<nat> := None;
      while true
        invariant !raced && seen == Seen(txs)
        invariant Walk(fetch, old(clock), None, [], None, limit) == Walk(fetch, clock, reported, txs, cursor, limit)
        decreases limit - |txs|
      {
        var page := NextPage(cursor);
        match page {
          case Down => return None;
          case RateLimited => return Some(AddressTxs(txs, true));
          case Body(b) =>
            var added := Unseen(b.0, seen);
            cursor := b.1;
            assert raced ==> txs + added == txs;
            seen := seen + Seen(added);
            SeenConcat(txs, added);
            txs := txs + added;
            if |txs| >= limit {
              return Some(AddressTxs(txs[..limit], true));
            }
            if cursor.None? || added == [] {
              return Some(AddressTxs(txs, false));
            }
        }
      }
    }
  }

  lemma SeenConcat(a: seq<TxSummary>, b: seq<TxSummary>)
    ensures Seen(a + b) == Seen(a) + Seen(b)
  {
    var c := a + b;
    forall x ensures x in Seen(c) <==> x in Seen(a) + Seen(b) {
      if x in Seen(a) {
        var i :| 0 <= i < |a| && a[i].txid == x;
        assert c[i].txid == x;
      }
      if x in Seen(b) {
        var i :| 0 <= i < |b| && b[i].txid == x;
        assert c[|a| + i].txid == x;
      }
    }
  }

  /** `DashAdapter`: the endpoints to try, the one pinned, and the moment of the next request. */
  class DashAdapter {
    const candidates: seq<Host>
    var pinned: nat
    var clock: nat

    constructor (candidates: seq<Host>)
      requires candidates != []
      ensures this.candidates == candidates && pinned == 0 && clock == 0
    {
      this.candidates, pinned, clock := candidates, 0, 0;
    }

    /** The retry loop of `address_txs` on one endpoint; no answer means it is down. */
    method WalkWithRetries(fetch: Fetch, limit: nat) returns (r: Option<AddressTxs>)
      modifies this`clock
      ensures var o := Attempts(fetch, old(clock), [], limit, INSIGHT_WALK_ATTEMPTS);
              clock == o.clock && (if r.None? then o.Failed? else o.Walked? && o.result == r.value)
    {
      var last: seq<TxSummary> := [];
      for i := 0 to INSIGHT_WALK_ATTEMPTS
        invariant Attempts(fetch, clock, last, limit, INSIGHT_WALK_ATTEMPTS - i)
                  == Attempts(fetch, old(clock), [], limit, INSIGHT_WALK_ATTEMPTS)
      {
        var attempt := new Attempt(fetch, clock);
        var walked := attempt.CollectPages(limit);
        clock := attempt.clock;
        if walked.None? {
          return None;
        }
        if !attempt.raced {
          return walked;
        }
        last := walked.value.transactions;
      }
      return Some(AddressTxs(last, true));
    }

    /**
     * `address_txs` through `_on_any`: starting at the pinned endpoint, each is
     * asked in turn while the ones before it are down. The first that is not
     * answers, and is pinned; with every one down there is no answer.
     */
    method FetchAddressTxs(limit: nat) returns (r: Option<AddressTxs>)
      requires pinned < |candidates|
      modifies this
      ensures pinned < |candidates|
      ensures r.Some? ==> exists i: nat :: i < |candidates| && pinned == (old(pinned) + i) % |candidates| &&
                            AllDown(candidates, old(pinned), i, old(clock), limit) &&
                            var o := Tried(candidates, old(pinned), i, old(clock), limit);
                            o.Walked? && o.result == r.value && clock == o.clock
      ensures r.None? ==> pinned == old(pinned) && AllDown(candidates, pinned, |candidates|, old(clock), limit)
    {
      var n := |candidates|;
      for i := 0 to n
        invariant pinned == old(pinned) && clock == Reached(candidates, pinned, i, old(clock), limit)
        invariant AllDown(candidates, pinned, i, old(clock), limit)
      {
        var at := (pinned + i) % n;
        ghost var o := Tried(candidates, pinned, i, old(clock), limit);
        r := WalkWithRetries(FetchOf(candidates[at]), limit);
        if r.Some? {
          pinned := at;
          return;
        }
      }
      r := None;
    }
  }

  /** What `address_txs` makes of one endpoint, asked from a moment on. */
  function AttemptsOn(host: Host, start: nat, limit: nat): Outcome {
    Attempts(FetchOf(host), start, [], limit, INSIGHT_WALK_ATTEMPTS)
  }

  /** The `i`-th endpoint tried after the pinned one, from the moment the ones before it were found down. */
  function Tried(hosts: seq<Host>, pinned: nat, i: nat, clock: nat, limit: nat): Outcome
    requires hosts != []
    decreases i, 1
  {
    AttemptsOn(hosts[(pinned + i) % |hosts|], Reached(hosts, pinned, i, clock, limit), limit)
  }

  function Reached(hosts: seq<Host>, pinned: nat, i: nat, clock: nat, limit: nat): nat
    requires hosts != []
    decreases i, 0
  {
    if i == 0 then clock else Tried(hosts, pinned, i - 1, clock, limit).clock
  }

  /** The first `n` endpoints tried were down. */
  ghost predicate AllDown(hosts: seq<Host>, pinned: nat, n: nat, clock: nat, limit: nat)
    requires hosts != []
  {
    forall j: nat :: j < n ==> Tried(hosts, pinned, j, clock, limit).Failed?
  }

  // --- every walk is bounded ------------------------------------------------

  /** A walk makes at least one request, and at most one per transaction it may collect. */
  lemma {:induction false} WalkBounded(fetch: Fetch, clock: nat, reported: Option<Total>, txs: seq<TxSummary>,
                                       cursor: Option<nat>, limit: nat)
    ensures clock < Walk(fetch, clock, reported, txs, cursor, limit).clock <= clock + Max(1, limit - |txs|)
    decreases limit - |txs|
  {
    match fetch(clock, cursor) {
      case Down =>
      case RateLimited =>
      case Body(page) =>
        var added := Unseen(page.txs, Seen(txs));
        if !(page.total.Some? && reported.Some? && page.total != reported)
           && |txs + added| < limit && page.following.Some? && added != [] {
          var first := if reported.Some? then reported else page.total;
          WalkBounded(fetch, clock + 1, first, txs + added, page.following, limit);
        }
    }
  }

  /** Three attempts make at most three times as many. */
  lemma {:induction false} AttemptsClock(fetch: Fetch, clock: nat, last: seq<TxSummary>, limit: nat, left: nat)
    ensures clock <= Attempts(fetch, clock, last, limit, left).clock <= clock + left * Max(1, limit)
    decreases left
  {
    if left > 0 {
      WalkBounded(fetch, clock, None, [], None, limit);
      var w := Walk(fetch, clock, None, [], None, limit);
      assert left * Max(1, limit) == (left - 1) * Max(1, limit) + Max(1, limit);
      assert (left - 1) * Max(1, limit) >= 0;
      if w.Walked? && w.raced {
        AttemptsClock(fetch, w.clock, w.result.transactions, limit, left - 1);
      }
    }
  }
}
