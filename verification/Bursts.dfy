/**
 * Attribution of orders to news in the experiment dashboard (src/agentic_investor/dashboard/server.py): orders are
 * bucketed into bursts, bursts are claimed by news rows, and unclaimed start-up bursts get a row of their own.
 * Times are integer milliseconds; everything here is for one arm.
 */
module Bursts {
  import opened Basics

  const ORDER_GRACE := 5000
  const WINDOW := 300000
  const HOT_LOOKBACK := 90000

  datatype Attribution = Attribution(ts: int, recId: Option<int>, trigger: string, tickers: set<string>)

  datatype Order = Order(ts: int, ticker: string)

  /** `at` is the attribution's position; `orders` are positions in the arm's order list. */
  datatype Burst = Burst(at: nat, ts: int, recId: int, trigger: string, tickers: set<string>, orders: seq<nat>)

  datatype News = News(ts: Option<int>, ticker: Option<string>)

  datatype Hot = Hot(ts: int, ticker: string)

  // ---- bursts ----

  predicate SortedByTime(attribs: seq<Attribution>) {
    forall i, j | 0 <= i < j < |attribs| :: attribs[i].ts <= attribs[j].ts
  }

  /** An order falls to attribution `i`: at or after it, within the grace, and before the next one. */
  predicate FallsTo(attribs: seq<Attribution>, i: nat, o: Order)
    requires i < |attribs|
  {
    && 0 <= o.ts - attribs[i].ts <= ORDER_GRACE
    && (i + 1 < |attribs| ==> o.ts < attribs[i + 1].ts)
  }

  function Bucket(attribs: seq<Attribution>, i: nat, orders: seq<Order>, n: nat): (b: seq<nat>)
    requires i < |attribs| && n <= |orders|
    ensures forall k | 0 <= k < |b| :: b[k] < n
  {
    if n == 0 then []
    else if FallsTo(attribs, i, orders[n - 1]) then Bucket(attribs, i, orders, n - 1) + [n - 1]
    else Bucket(attribs, i, orders, n - 1)
  }

  /** The bursts of the first `n` attributions; an attribution without a recommendation makes none. */
  function BurstsUpTo(attribs: seq<Attribution>, orders: seq<Order>, n: nat): seq<Burst>
    requires n <= |attribs|
  {
    if n == 0 then []
    else
      var init, a := BurstsUpTo(attribs, orders, n - 1), attribs[n - 1];
      if a.recId.None? then init
      else
        init + [Burst(n - 1, a.ts, a.recId.value, a.trigger, a.tickers, Bucket(attribs, n - 1, orders, |orders|))]
  }

  method BuildBursts(attribs: seq<Attribution>, orders: seq<Order>) returns (bursts: seq<Burst>)
    ensures bursts == BurstsUpTo(attribs, orders, |attribs|)
  {
    bursts := [];
    for i := 0 to |attribs|
      invariant bursts == BurstsUpTo(attribs, orders, i)
    {
      var a := attribs[i];
      if a.recId.None? {
        continue;
      }
      var bucket: seq<nat> := [];
      for k := 0 to |orders|
        invariant bucket == Bucket(attribs, i, orders, k)
      {
        var delta := orders[k].ts - a.ts;
        if delta < 0 || delta > ORDER_GRACE {
          continue;
        }
        if i + 1 < |attribs| && orders[k].ts >= attribs[i + 1].ts {
          continue;
        }
        bucket := bucket + [k];
      }
      bursts := bursts + [Burst(i, a.ts, a.recId.value, a.trigger, a.tickers, bucket)];
    }
  }

  lemma {:induction false} BucketMeaning(attribs: seq<Attribution>, i: nat, orders: seq<Order>, n: nat)
    requires i < |attribs| && n <= |orders|
    ensures forall k: nat | k < n :: k in Bucket(attribs, i, orders, n) <==> FallsTo(attribs, i, orders[k])
    ensures forall x, y | 0 <= x < y < |Bucket(attribs, i, orders, n)| ::
              Bucket(attribs, i, orders, n)[x] < Bucket(attribs, i, orders, n)[y]
  {
    hide FallsTo;
    if n > 0 { BucketMeaning(attribs, i, orders, n - 1); }
  }

  /** With attributions in time order, an order falls to the last attribution at or before it, if to any. */
  lemma FallsToOne(attribs: seq<Attribution>, i: nat, j: nat, o: Order)
    requires SortedByTime(attribs) && i < |attribs| && j < |attribs|
    requires FallsTo(attribs, i, o) && FallsTo(attribs, j, o)
    ensures i == j
  {
    if i < j { FallsBefore(attribs, i, j, o); } else if j < i { FallsBefore(attribs, j, i, o); }
  }

  lemma FallsBefore(attribs: seq<Attribution>, i: nat, j: nat, o: Order)
    requires SortedByTime(attribs) && i < j < |attribs| && FallsTo(attribs, i, o)
    ensures !FallsTo(attribs, j, o)
  {
    assert attribs[i + 1].ts <= attribs[j].ts by {
      if i + 1 < j { assert SortedByTime(attribs); }
    }
  }

  predicate BurstOk(attribs: seq<Attribution>, orders: seq<Order>, b: Burst) {
    && b.at < |attribs| && attribs[b.at].recId == Some(b.recId) && b.ts == attribs[b.at].ts
    && b.trigger == attribs[b.at].trigger && b.tickers == attribs[b.at].tickers
    && b.orders == Bucket(attribs, b.at, orders, |orders|)
  }

  lemma {:induction false} BurstsMeaning(attribs: seq<Attribution>, orders: seq<Order>, n: nat)
    requires n <= |attribs|
    ensures forall i | 0 <= i < |BurstsUpTo(attribs, orders, n)| ::
              BurstOk(attribs, orders, BurstsUpTo(attribs, orders, n)[i]) && BurstsUpTo(attribs, orders, n)[i].at < n
    ensures forall i, j | 0 <= i < j < |BurstsUpTo(attribs, orders, n)| ::
              BurstsUpTo(attribs, orders, n)[i].at < BurstsUpTo(attribs, orders, n)[j].at
  {
    hide Bucket;
    if n > 0 {
      BurstsMeaning(attribs, orders, n - 1);
      var init, a := BurstsUpTo(attribs, orders, n - 1), attribs[n - 1];
      if a.recId.Some? {
        var b := Burst(n - 1, a.ts, a.recId.value, a.trigger, a.tickers, Bucket(attribs, n - 1, orders, |orders|));
        assert BurstsUpTo(attribs, orders, n) == init + [b] && BurstOk(attribs, orders, b);
      } else {
        assert BurstsUpTo(attribs, orders, n) == init;
      }
    }
  }

  /** No attribution with a recommendation is passed over. */
  lemma {:induction false} EveryAttributionBursts(attribs: seq<Attribution>, orders: seq<Order>, n: nat, i: nat)
    returns (k: nat)
    requires i < n <= |attribs| && attribs[i].recId.Some?
    ensures k < |BurstsUpTo(attribs, orders, n)| && BurstsUpTo(attribs, orders, n)[k].at == i
  {
    hide Bucket;
    if i == n - 1 {
      k := |BurstsUpTo(attribs, orders, n - 1)|;
    } else {
      k := EveryAttributionBursts(attribs, orders, n - 1, i);
    }
  }

  /** Each order is in at most one burst, and in a burst at most once. */
  lemma OrderInOneBurst(attribs: seq<Attribution>, orders: seq<Order>, i: nat, j: nat, x: nat, y: nat)
    requires SortedByTime(attribs)
    requires var bs := BurstsUpTo(attribs, orders, |attribs|);
             i < |bs| && j < |bs| && x < |bs[i].orders| && y < |bs[j].orders| && bs[i].orders[x] == bs[j].orders[y]
    ensures i == j && x == y
  {
    var bs := BurstsUpTo(attribs, orders, |attribs|);
    BurstsMeaning(attribs, orders, |attribs|);
    hide BurstsUpTo;
    assert BurstOk(attribs, orders, bs[i]) && BurstOk(attribs, orders, bs[j]);
    var k := bs[i].orders[x];
    BucketMeaning(attribs, bs[i].at, orders, |orders|);
    BucketMeaning(attribs, bs[j].at, orders, |orders|);
    assert k in bs[i].orders && k in bs[j].orders;
    FallsToOne(attribs, bs[i].at, bs[j].at, orders[k]);
  }

  /** Attribution `i` is the last one at or before the order. */
  predicate LatestBefore(attribs: seq<Attribution>, i: nat, o: Order) {
    i < |attribs| && attribs[i].ts <= o.ts && forall j | i < j < |attribs| :: o.ts < attribs[j].ts
  }

  /**
   * An order is in a burst exactly when the last attribution at or before it is that burst's and at most 5 seconds
   * older; an order before every attribution is in none.
   */
  lemma OrderLands(attribs: seq<Attribution>, orders: seq<Order>, k: nat, i: nat, x: nat)
    requires SortedByTime(attribs) && k < |orders| && x < |BurstsUpTo(attribs, orders, |attribs|)|
    ensures var b := BurstsUpTo(attribs, orders, |attribs|)[x];
            && (LatestBefore(attribs, i, orders[k]) ==>
                  (k in b.orders <==> b.at == i && orders[k].ts - attribs[i].ts <= 5000))
            && ((forall j | 0 <= j < |attribs| :: orders[k].ts < attribs[j].ts) ==> k !in b.orders)
  {
    var b := BurstsUpTo(attribs, orders, |attribs|)[x];
    BurstsMeaning(attribs, orders, |attribs|);
    hide BurstsUpTo, SortedByTime;
    assert BurstOk(attribs, orders, b);
    BucketMeaning(attribs, b.at, orders, |orders|);
    hide Bucket;
    if LatestBefore(attribs, i, orders[k]) { OnlyLatest(attribs, b.at, i, orders[k]); }
  }

  lemma OnlyLatest(attribs: seq<Attribution>, at: nat, i: nat, o: Order)
    requires SortedByTime(attribs) && at < |attribs| && LatestBefore(attribs, i, o)
    ensures FallsTo(attribs, at, o) <==> at == i && o.ts - attribs[i].ts <= 5000
  {
    if at < i { assert attribs[at + 1].ts <= attribs[i].ts; }
  }

  // ---- claiming ----

  /** Why a burst counts as a reaction to a piece of news. */
  predicate Matches(n: News, b: Burst, orders: seq<Order>, hots: seq<Hot>, macro: set<string>) {
    n.ticker.Some?
    && (|| (exists k | k in b.orders :: k < |orders| && orders[k].ticker == n.ticker.value)
        || (exists h | h in hots :: 0 <= b.ts - h.ts <= HOT_LOOKBACK && h.ticker == n.ticker.value)
        || n.ticker.value in macro
        || n.ticker.value in b.tickers)
  }

  predicate Eligible(n: News, b: Burst, orders: seq<Order>, hots: seq<Hot>, macro: set<string>,
                     newsDriven: set<string>)
  {
    n.ts.Some? && 0 <= b.ts - n.ts.value <= WINDOW && b.trigger in newsDriven && Matches(n, b, orders, hots, macro)
  }

  type Key = (int, int)

  function KeyOf(b: Burst): Key {
    (b.recId, b.ts)
  }

  /** The first eligible burst nobody has claimed. */
  function FirstFree(n: News, bursts: seq<Burst>, i: nat, orders: seq<Order>, hots: seq<Hot>, macro: set<string>,
                     newsDriven: set<string>, claimed: set<Key>): Option<nat>
    requires i <= |bursts|
    decreases |bursts| - i
  {
    if i == |bursts| then None
    else if Eligible(n, bursts[i], orders, hots, macro, newsDriven) && KeyOf(bursts[i]) !in claimed then Some(i)
    else FirstFree(n, bursts, i + 1, orders, hots, macro, newsDriven, claimed)
  }

  /** The rows of the table, by the burst each shows for this arm, and the keys claimed so far. */
  datatype Table = Table(rows: seq<Option<nat>>, claimed: set<Key>)

  function NewsRows(news: seq<News>, bursts: seq<Burst>, orders: seq<Order>, hots: seq<Hot>, macro: set<string>,
                    newsDriven: set<string>): Table
  {
    if news == [] then Table([], {})
    else
      var t, n := NewsRows(news[..|news| - 1], bursts, orders, hots, macro, newsDriven), news[|news| - 1];
      if n.ts.None? then t
      else
        var shown := FirstFree(n, bursts, 0, orders, hots, macro, newsDriven, t.claimed);
        var keys := if shown.Some? && shown.value < |bursts| then {KeyOf(bursts[shown.value])} else {};
        Table(t.rows + [shown], t.claimed + keys)
  }

  /** A start-up burst with orders, still unclaimed. */
  predicate Backlog(b: Burst, claimed: set<Key>) {
    b.trigger == "force-regen" && KeyOf(b) !in claimed && b.orders != []
  }

  /** A row for each of the first `n` bursts that is backlog. */
  function PseudoRows(bursts: seq<Burst>, n: nat, claimed: set<Key>): seq<Option<nat>>
    requires n <= |bursts|
  {
    if n == 0 then []
    else
      if Backlog(bursts[n - 1], claimed) then
        PseudoRows(bursts, n - 1, claimed) + [Some(n - 1)]
      else PseudoRows(bursts, n - 1, claimed)
  }

  function AllRows(news: seq<News>, bursts: seq<Burst>, orders: seq<Order>, hots: seq<Hot>, macro: set<string>,
                   newsDriven: set<string>): seq<Option<nat>>
  {
    var t := NewsRows(news, bursts, orders, hots, macro, newsDriven);
    PseudoRows(bursts, |bursts|, t.claimed) + t.rows
  }

  /** The search of one news row over the arm's bursts. */
  method ClaimFirst(n: News, bursts: seq<Burst>, orders: seq<Order>, hots: seq<Hot>, macro: set<string>,
                    newsDriven: set<string>, claimed: set<Key>)
    returns (shown: Option<nat>, claimed': set<Key>)
    requires n.ts.Some?
    ensures shown == FirstFree(n, bursts, 0, orders, hots, macro, newsDriven, claimed)
    ensures shown.Some? ==> shown.value < |bursts| && claimed' == claimed + {KeyOf(bursts[shown.value])}
    ensures shown.None? ==> claimed' == claimed
  {
    shown, claimed' := None, claimed;
    for i := 0 to |bursts|
      invariant FirstFree(n, bursts, 0, orders, hots, macro, newsDriven, claimed)
             == FirstFree(n, bursts, i, orders, hots, macro, newsDriven, claimed)
      invariant shown == None && claimed' == claimed
    {
      var b := bursts[i];
      var delta := b.ts - n.ts.value;
      if delta < 0 || delta > WINDOW || b.trigger !in newsDriven || !Matches(n, b, orders, hots, macro) {
        continue;
      }
      if KeyOf(b) in claimed {
        continue;
      }
      shown, claimed' := Some(i), claimed + {KeyOf(b)};
      return;
    }
  }

  /** The rows of the whole table for one arm. */
  method BuildRows(news: seq<News>, bursts: seq<Burst>, orders: seq<Order>, hots: seq<Hot>, macro: set<string>,
                   newsDriven: set<string>)
    returns (rows: seq<Option<nat>>)
    ensures rows == AllRows(news, bursts, orders, hots, macro, newsDriven)
  {
    hide FirstFree;
    var claimed: set<Key>, reactions: seq<Option<nat>> := {}, [];
    for i := 0 to |news|
      invariant NewsRows(news[..i], bursts, orders, hots, macro, newsDriven) == Table(reactions, claimed)
    {
      assert news[..i + 1][..i] == news[..i];
      if news[i].ts.None? {
        continue;
      }
      var shown;
      shown, claimed := ClaimFirst(news[i], bursts, orders, hots, macro, newsDriven, claimed);
      reactions := reactions + [shown];
    }
    assert news[..|news|] == news;
    var pseudo: seq<Option<nat>> := [];
    for i := 0 to |bursts|
      invariant pseudo == PseudoRows(bursts, i, claimed)
    {
      var b := bursts[i];
      if b.trigger != "force-regen" || KeyOf(b) in claimed || b.orders == [] {
        continue;
      }
      pseudo := pseudo + [Some(i)];
    }
    rows := pseudo + reactions;
  }

  // ---- nothing is displayed twice ----

  lemma {:induction false} FreeMeaning(n: News, bursts: seq<Burst>, i: nat, orders: seq<Order>, hots: seq<Hot>,
                                       macro: set<string>, newsDriven: set<string>, claimed: set<Key>)
    requires i <= |bursts|
    ensures var r := FirstFree(n, bursts, i, orders, hots, macro, newsDriven, claimed);
            && (r.Some? ==> i <= r.value < |bursts| && KeyOf(bursts[r.value]) !in claimed
                            && Eligible(n, bursts[r.value], orders, hots, macro, newsDriven))
            && (forall k | i <= k < (if r.Some? then r.value else |bursts|) ::
                  KeyOf(bursts[k]) in claimed || !Eligible(n, bursts[k], orders, hots, macro, newsDriven))
    decreases |bursts| - i
  {
    hide Eligible;
    if i < |bursts| { FreeMeaning(n, bursts, i + 1, orders, hots, macro, newsDriven, claimed); }
  }

  /** Rows show bursts whose keys are claimed, no key twice. */
  predicate RowsOk(rows: seq<Option<nat>>, bursts: seq<Burst>, claimed: set<Key>) {
    && (forall r | 0 <= r < |rows| && rows[r].Some? ::
          rows[r].value < |bursts| && KeyOf(bursts[rows[r].value]) in claimed)
    && (forall r, q | 0 <= r < q < |rows| && rows[r].Some? && rows[q].Some? && rows[r].value < |bursts|
                      && rows[q].value < |bursts| :: KeyOf(bursts[rows[r].value]) != KeyOf(bursts[rows[q].value]))
  }

  lemma {:induction false} NewsRowsOk(news: seq<News>, bursts: seq<Burst>, orders: seq<Order>, hots: seq<Hot>,
                                      macro: set<string>, newsDriven: set<string>)
    ensures var t := NewsRows(news, bursts, orders, hots, macro, newsDriven);
            RowsOk(t.rows, bursts, t.claimed)
  {
    if news != [] {
      var init, n := news[..|news| - 1], news[|news| - 1];
      NewsRowsOk(init, bursts, orders, hots, macro, newsDriven);
      var t := NewsRows(init, bursts, orders, hots, macro, newsDriven);
      if n.ts.Some? {
        FreeMeaning(n, bursts, 0, orders, hots, macro, newsDriven, t.claimed);
        var shown := FirstFree(n, bursts, 0, orders, hots, macro, newsDriven, t.claimed);
        hide FirstFree, Eligible;
        var rows := t.rows + [shown];
        assert forall r | 0 <= r < |t.rows| :: rows[r] == t.rows[r];
      }
    }
  }

  // ---- why a row shows a burst ----

  function Timed(news: seq<News>): seq<News> {
    if news == [] then []
    else
      var init, n := Timed(news[..|news| - 1]), news[|news| - 1];
      if n.ts.None? then init else init + [n]
  }

  /**
   * The burst is a reaction to the news: news-driven, within 300 seconds after it, and it trades the ticker, or follows
   * a hot signal for it by at most 90 seconds, or the ticker is a macro one, or the attribution names it.
   */
  predicate Reacts(n: News, b: Burst, orders: seq<Order>, hots: seq<Hot>, macro: set<string>, newsDriven: set<string>) {
    && n.ts.Some? && n.ts.value <= b.ts <= n.ts.value + 300000 && b.trigger in newsDriven && n.ticker.Some?
    && (|| n.ticker.value in b.tickers || n.ticker.value in macro
        || (exists h | h in hots :: h.ticker == n.ticker.value && h.ts <= b.ts <= h.ts + 90000)
        || (exists k | k in b.orders :: k < |orders| && orders[k].ticker == n.ticker.value))
  }

  lemma EligibleIsReacts(n: News, b: Burst, orders: seq<Order>, hots: seq<Hot>, macro: set<string>,
                         newsDriven: set<string>)
    ensures Eligible(n, b, orders, hots, macro, newsDriven) <==> Reacts(n, b, orders, hots, macro, newsDriven)
  {
  }

  /** One of the first `n` rows shows a burst with this key. */
  ghost predicate ShownBefore(rows: seq<Option<nat>>, bursts: seq<Burst>, n: nat, key: Key) {
    exists q: nat :: q < n && q < |rows| && rows[q].Some? && rows[q].value < |bursts|
                     && KeyOf(bursts[rows[q].value]) == key
  }

  /** Row `r` shows a burst that reacts to its news, and the first one that no earlier row shows. */
  ghost predicate RowMeaning(r: nat, rows: seq<Option<nat>>, n: News, bursts: seq<Burst>, orders: seq<Order>,
                             hots: seq<Hot>, macro: set<string>, newsDriven: set<string>)
    requires r < |rows|
  {
    && (rows[r].Some? ==>
          && rows[r].value < |bursts| && Reacts(n, bursts[rows[r].value], orders, hots, macro, newsDriven)
          && !ShownBefore(rows, bursts, r, KeyOf(bursts[rows[r].value])))
    && (forall i: nat | i < |bursts| && Reacts(n, bursts[i], orders, hots, macro, newsDriven) ::
          || (rows[r].Some? && rows[r].value <= i)
          || ShownBefore(rows, bursts, r, KeyOf(bursts[i])))
  }

  /** There is one row per timed news item, in order, and each means that. */
  lemma {:induction false} NewsRowMeaning(news: seq<News>, bursts: seq<Burst>, orders: seq<Order>, hots: seq<Hot>,
                                          macro: set<string>, newsDriven: set<string>)
    ensures var rows := NewsRows(news, bursts, orders, hots, macro, newsDriven).rows;
            && |rows| == |Timed(news)|
            && forall r | 0 <= r < |rows| ::
                 RowMeaning(r, rows, Timed(news)[r], bursts, orders, hots, macro, newsDriven)
  {
    if news != [] {
      var init, n := news[..|news| - 1], news[|news| - 1];
      var t := NewsRows(init, bursts, orders, hots, macro, newsDriven);
      NewsRowMeaning(init, bursts, orders, hots, macro, newsDriven);
      if n.ts.Some? {
        var shown := FirstFree(n, bursts, 0, orders, hots, macro, newsDriven, t.claimed);
        NewRowMeaning(init, n, bursts, orders, hots, macro, newsDriven);
        hide FirstFree, RowMeaning;
        forall r | 0 <= r < |t.rows|
          ensures RowMeaning(r, t.rows + [shown], Timed(init)[r], bursts, orders, hots, macro, newsDriven)
        {
          RowStays(r, t.rows, shown, Timed(init)[r], bursts, orders, hots, macro, newsDriven);
        }
      }
    }
  }

  lemma RowStays(r: nat, rows: seq<Option<nat>>, more: Option<nat>, n: News, bursts: seq<Burst>, orders: seq<Order>,
                 hots: seq<Hot>, macro: set<string>, newsDriven: set<string>)
    requires r < |rows| && RowMeaning(r, rows, n, bursts, orders, hots, macro, newsDriven)
    ensures RowMeaning(r, rows + [more], n, bursts, orders, hots, macro, newsDriven)
  {
    hide Reacts;
    forall key ensures ShownBefore(rows + [more], bursts, r, key) <==> ShownBefore(rows, bursts, r, key) {
      ShownStays(rows, more, bursts, r, key);
    }
    hide ShownBefore;
  }

  lemma ShownStays(rows: seq<Option<nat>>, more: Option<nat>, bursts: seq<Burst>, r: nat, key: Key)
    requires r <= |rows|
    ensures ShownBefore(rows + [more], bursts, r, key) <==> ShownBefore(rows, bursts, r, key)
  {
    assert forall q: nat | q < r :: (rows + [more])[q] == rows[q];
  }

  lemma NewRowMeaning(init: seq<News>, n: News, bursts: seq<Burst>, orders: seq<Order>, hots: seq<Hot>,
                      macro: set<string>, newsDriven: set<string>)
    requires n.ts.Some?
    ensures var t := NewsRows(init, bursts, orders, hots, macro, newsDriven);
            var shown := FirstFree(n, bursts, 0, orders, hots, macro, newsDriven, t.claimed);
            RowMeaning(|t.rows|, t.rows + [shown], n, bursts, orders, hots, macro, newsDriven)
  {
    var t := NewsRows(init, bursts, orders, hots, macro, newsDriven);
    var shown := FirstFree(n, bursts, 0, orders, hots, macro, newsDriven, t.claimed);
    FreeMeaning(n, bursts, 0, orders, hots, macro, newsDriven, t.claimed);
    NewsRowsOk(init, bursts, orders, hots, macro, newsDriven);
    hide FirstFree, NewsRows, Eligible, Reacts, Matches;
    forall key ensures key in t.claimed <==> ShownBefore(t.rows + [shown], bursts, |t.rows|, key) {
      ShownStays(t.rows, shown, bursts, |t.rows|, key);
      if key in t.claimed {
        var q := ClaimedIsShown(init, bursts, orders, hots, macro, newsDriven, key);
      }
    }
    hide ShownBefore, RowsOk;
    forall i: nat | i < |bursts|
      ensures Eligible(n, bursts[i], orders, hots, macro, newsDriven)
              <==> Reacts(n, bursts[i], orders, hots, macro, newsDriven)
    {
      EligibleIsReacts(n, bursts[i], orders, hots, macro, newsDriven);
    }
  }

  /** Over the whole table of an arm: start-up rows first, then the news rows in the order of the news. */
  lemma TableMeaning(news: seq<News>, bursts: seq<Burst>, orders: seq<Order>, hots: seq<Hot>, macro: set<string>,
                     newsDriven: set<string>)
    ensures var all := AllRows(news, bursts, orders, hots, macro, newsDriven);
            && |all| >= |Timed(news)|
            && var rows := all[|all| - |Timed(news)|..];
               forall r | 0 <= r < |rows| ::
                 RowMeaning(r, rows, Timed(news)[r], bursts, orders, hots, macro, newsDriven)
    ensures var all := AllRows(news, bursts, orders, hots, macro, newsDriven);
            |all| >= |Timed(news)| && forall r | 0 <= r < |all| - |Timed(news)| ::
              && all[r].Some? && all[r].value < |bursts| && bursts[all[r].value].trigger == "force-regen"
              && bursts[all[r].value].orders != []
  {
    var t := NewsRows(news, bursts, orders, hots, macro, newsDriven);
    var pseudo := PseudoRows(bursts, |bursts|, t.claimed);
    NewsRowMeaning(news, bursts, orders, hots, macro, newsDriven);
    PseudoMeaning(bursts, |bursts|, t.claimed);
    var all := AllRows(news, bursts, orders, hots, macro, newsDriven);
    assert all == pseudo + t.rows && |all| - |Timed(news)| == |pseudo|;
    hide NewsRows, PseudoRows, AllRows, RowMeaning, KeyOf;
    assert all[|pseudo|..] == t.rows;
    assert forall r | 0 <= r < |pseudo| :: (pseudo + t.rows)[r] == pseudo[r];
  }

  lemma {:induction false} PseudoMeaning(bursts: seq<Burst>, n: nat, claimed: set<Key>)
    requires n <= |bursts|
    ensures var rows := PseudoRows(bursts, n, claimed);
            && (forall r | 0 <= r < |rows| ::
                  rows[r].Some? && rows[r].value < n && Backlog(bursts[rows[r].value], claimed))
            && (forall r, q | 0 <= r < q < |rows| :: rows[r] != rows[q])
            && (forall i: nat | i < n && Backlog(bursts[i], claimed) :: Some(i) in rows)
  {
    hide Backlog;
    if n > 0 { PseudoMeaning(bursts, n - 1, claimed); }
  }

  /** Each burst is shown by at most one row, news row or backlog row. */
  lemma BurstShownOnce(news: seq<News>, bursts: seq<Burst>, orders: seq<Order>, hots: seq<Hot>, macro: set<string>,
                       newsDriven: set<string>)
    ensures var rows := AllRows(news, bursts, orders, hots, macro, newsDriven);
            && (forall r | 0 <= r < |rows| && rows[r].Some? :: rows[r].value < |bursts|)
            && (forall r, q | 0 <= r < q < |rows| && rows[r].Some? :: rows[r] != rows[q])
  {
    var t := NewsRows(news, bursts, orders, hots, macro, newsDriven);
    var pseudo := PseudoRows(bursts, |bursts|, t.claimed);
    NewsRowsOk(news, bursts, orders, hots, macro, newsDriven);
    PseudoMeaning(bursts, |bursts|, t.claimed);
    hide NewsRows, PseudoRows, KeyOf;
    var rows := pseudo + t.rows;
    assert forall r | 0 <= r < |rows| :: rows[r] == if r < |pseudo| then pseudo[r] else t.rows[r - |pseudo|];
  }

  /** Hence no order is displayed twice, over all rows of the arm. */
  lemma OrderShownOnce(news: seq<News>, attribs: seq<Attribution>, orders: seq<Order>, hots: seq<Hot>,
                       macro: set<string>, newsDriven: set<string>, r: nat, q: nat, x: nat, y: nat)
    requires SortedByTime(attribs)
    requires var bs := BurstsUpTo(attribs, orders, |attribs|);
             var rows := AllRows(news, bs, orders, hots, macro, newsDriven);
             && r < |rows| && q < |rows| && rows[r].Some? && rows[q].Some?
             && rows[r].value < |bs| && rows[q].value < |bs|
             && x < |bs[rows[r].value].orders| && y < |bs[rows[q].value].orders|
             && bs[rows[r].value].orders[x] == bs[rows[q].value].orders[y]
    ensures r == q && x == y
  {
    var bs := BurstsUpTo(attribs, orders, |attribs|);
    var rows := AllRows(news, bs, orders, hots, macro, newsDriven);
    hide AllRows;
    OrderInOneBurst(attribs, orders, rows[r].value, rows[q].value, x, y);
    BurstShownOnce(news, bs, orders, hots, macro, newsDriven);
    hide BurstsUpTo;
  }

  /** And a start-up burst with orders is always shown: by row `r`, or row `r` shows another burst with the same key. */
  lemma StartupBurstShown(news: seq<News>, bursts: seq<Burst>, orders: seq<Order>, hots: seq<Hot>, macro: set<string>,
                          newsDriven: set<string>, i: nat)
    returns (r: nat)
    requires i < |bursts| && bursts[i].trigger == "force-regen" && bursts[i].orders != []
    ensures var rows := AllRows(news, bursts, orders, hots, macro, newsDriven);
            r < |rows| && rows[r].Some? && rows[r].value < |bursts|
            && KeyOf(bursts[rows[r].value]) == KeyOf(bursts[i])
  {
    var t := NewsRows(news, bursts, orders, hots, macro, newsDriven);
    var pseudo := PseudoRows(bursts, |bursts|, t.claimed);
    if KeyOf(bursts[i]) in t.claimed {
      r := ClaimedIsShown(news, bursts, orders, hots, macro, newsDriven, KeyOf(bursts[i]));
      hide NewsRows, PseudoRows, KeyOf;
      assert (pseudo + t.rows)[|pseudo| + r] == t.rows[r];
      r := |pseudo| + r;
    } else {
      PseudoMeaning(bursts, |bursts|, t.claimed);
      hide NewsRows, PseudoRows, KeyOf;
      r :| r < |pseudo| && pseudo[r] == Some(i);
      assert (pseudo + t.rows)[r] == pseudo[r];
    }
  }

  lemma {:induction false} ClaimedIsShown(news: seq<News>, bursts: seq<Burst>, orders: seq<Order>, hots: seq<Hot>,
                                          macro: set<string>, newsDriven: set<string>, key: Key)
    returns (r: nat)
    requires key in NewsRows(news, bursts, orders, hots, macro, newsDriven).claimed
    ensures var rows := NewsRows(news, bursts, orders, hots, macro, newsDriven).rows;
            r < |rows| && rows[r].Some? && rows[r].value < |bursts| && KeyOf(bursts[rows[r].value]) == key
  {
    hide FirstFree;
    var init := news[..|news| - 1];
    var t := NewsRows(init, bursts, orders, hots, macro, newsDriven);
    if key in t.claimed {
      r := ClaimedIsShown(init, bursts, orders, hots, macro, newsDriven, key);
    } else {
      r := |t.rows|;
    }
  }
}
