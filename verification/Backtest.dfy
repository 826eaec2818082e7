/** Portfolio simulation with rebalancing, slippage and commission (src/agentic_investor/eval/backtest.py). */
module Backtest {
  import opened Basics

  datatype Date = Date(year: int, month: int)

  /** One target of the weight dictionary, in the dictionary's order. */
  datatype Target = Target(ticker: string, weight: real)

  datatype Side = Buy | Sell

  /** A recorded trade, before the record's rounding; `spot` is the day's close. */
  datatype Trade = Trade(date: Date, ticker: string, side: Side, shares: real, spot: real, fill: real, commission: real)

  datatype Config = Config(mode: string, bandAbs: real, bandRel: real, bandBuyMult: real, ddPause: real,
                           dailyRate: real, tcostBps: real, slippageBps: real)

  datatype Pf = Pf(shares: map<string, real>, cash: real, trades: seq<Trade>)

  predicate Distinct(ts: seq<Target>) {
    forall i, j | 0 <= i < j < |ts| :: ts[i].ticker != ts[j].ticker
  }

  /** Every target has a price to divide by. */
  predicate Quoted(ts: seq<Target>, prices: map<string, real>) {
    forall t | t in ts :: t.ticker in prices && prices[t.ticker] != 0.0
  }

  /** No fill price is zero. */
  predicate Fillable(cfg: Config) {
    cfg.slippageBps != 10000.0 && cfg.slippageBps != -10000.0
  }

  /** Every target has a positive price. */
  predicate Priced(ts: seq<Target>, prices: map<string, real>) {
    forall t | t in ts :: t.ticker in prices && prices[t.ticker] > 0.0
  }

  /** Costs are costs: no negative commission, and slippage short of 100%. */
  predicate Costs(cfg: Config) {
    cfg.tcostBps >= 0.0 && 0.0 <= cfg.slippageBps < 10000.0
  }

  function Worth(shares: map<string, real>, t: string, price: real): real {
    Times(Get(shares, t, 0.0), price)
  }

  function Equity(shares: map<string, real>, ts: seq<Target>, prices: map<string, real>): real
    requires Quoted(ts, prices)
  {
    if ts == [] then 0.0
    else Worth(shares, ts[0].ticker, prices[ts[0].ticker]) + Equity(shares, ts[1..], prices)
  }

  function Value(pf: Pf, ts: seq<Target>, prices: map<string, real>): real
    requires Quoted(ts, prices)
  {
    pf.cash + Equity(pf.shares, ts, prices)
  }

  // ---- one rebalance ----

  function Delta(pf: Pf, t: Target, total: real, price: real): real {
    Times(total, t.weight) - Worth(pf.shares, t.ticker, price)
  }

  /** Adjustments under a dollar are ignored, and buys may be switched off. */
  predicate Skipped(delta: real, allowBuys: bool) {
    Abs(delta) < 1.0 || (delta > 0.0 && !allowBuys)
  }

  function FillPrice(delta: real, price: real, cfg: Config): real {
    Times(price, if delta > 0.0 then 1.0 + cfg.slippageBps / 10000.0 else 1.0 - cfg.slippageBps / 10000.0)
  }

  lemma FillNonZero(delta: real, price: real, cfg: Config)
    requires price != 0.0 && Fillable(cfg)
    ensures FillPrice(delta, price, cfg) != 0.0
  {
  }

  lemma FillPositive(delta: real, price: real, cfg: Config)
    requires price > 0.0 && Costs(cfg)
    ensures FillPrice(delta, price, cfg) > 0.0
    ensures delta > 0.0 ==> FillPrice(delta, price, cfg) >= price
    ensures delta <= 0.0 ==> FillPrice(delta, price, cfg) <= price
    ensures cfg.slippageBps == 0.0 ==> FillPrice(delta, price, cfg) == price
    ensures cfg.slippageBps > 0.0 ==> FillPrice(delta, price, cfg) != price
  {
    var s := cfg.slippageBps / 10000.0;
    assert FillPrice(delta, price, cfg) == if delta > 0.0 then price + price * s else price - price * s;
    assert 0.0 <= s < 1.0;
    assert price * s >= 0.0 && price * s < price;
    assert s > 0.0 ==> price * s > 0.0;
  }

  /** Shares bought, or sold when negative. */
  function MovedShares(delta: real, price: real, cfg: Config): real
    requires price != 0.0 && Fillable(cfg)
  {
    FillNonZero(delta, price, cfg);
    delta / FillPrice(delta, price, cfg)
  }

  function TradeOf(delta: real, t: Target, price: real, cfg: Config, date: Date): Trade
    requires price != 0.0 && Fillable(cfg)
  {
    var fill, moved := FillPrice(delta, price, cfg), MovedShares(delta, price, cfg);
    var gross := Times(Abs(moved), fill);
    Trade(date, t.ticker, if delta > 0.0 then Buy else Sell, Abs(moved), price, fill,
          Times(gross, cfg.tcostBps / 10000.0))
  }

  function Signed(tr: Trade): real {
    if tr.side == Buy then tr.shares else -tr.shares
  }

  function TradeOne(pf: Pf, t: Target, total: real, price: real, cfg: Config, allowBuys: bool, date: Date): Pf
    requires price != 0.0 && Fillable(cfg)
  {
    var delta := Delta(pf, t, total, price);
    if Skipped(delta, allowBuys) then pf
    else
      var tr, moved := TradeOf(delta, t, price, cfg, date), MovedShares(delta, price, cfg);
      Pf(pf.shares[t.ticker := Get(pf.shares, t.ticker, 0.0) + moved],
         pf.cash - (Times(moved, tr.fill) + tr.commission),
         pf.trades + [tr])
  }

  function Rebalanced(pf: Pf, ts: seq<Target>, total: real, prices: map<string, real>, cfg: Config, allowBuys: bool,
                      date: Date): Pf
    requires Quoted(ts, prices) && Fillable(cfg)
    decreases |ts|
  {
    if ts == [] then pf
    else
      Rebalanced(TradeOne(pf, ts[0], total, prices[ts[0].ticker], cfg, allowBuys, date), ts[1..], total, prices, cfg,
                 allowBuys, date)
  }

  function Rebalance(pf: Pf, ts: seq<Target>, prices: map<string, real>, cfg: Config, allowBuys: bool, date: Date): Pf
    requires Quoted(ts, prices) && Fillable(cfg)
  {
    Rebalanced(pf, ts, Value(pf, ts, prices), prices, cfg, allowBuys, date)
  }

  /** The share and trade records that a rebalance updates in place. */
  class Account {
    var shares: map<string, real>
    var trades: seq<Trade>

    constructor ()
      ensures shares == map[] && trades == []
    {
      shares, trades := map[], [];
    }

    method ExecuteRebalance(cash: real, ts: seq<Target>, prices: map<string, real>, cfg: Config, allowBuys: bool,
                            date: Date)
      returns (cash': real)
      requires Quoted(ts, prices) && Fillable(cfg)
      modifies this
      ensures Pf(shares, cash', trades) == Rebalance(old(Pf(shares, cash, trades)), ts, prices, cfg, allowBuys, date)
    {
      hide Times, Worth, FillPrice, Abs, Skipped, Equity;
      var total := cash + Equity(shares, ts, prices);
      cash' := cash;
      for i := 0 to |ts|
        invariant Rebalanced(Pf(shares, cash', trades), ts[i..], total, prices, cfg, allowBuys, date)
               == Rebalance(old(Pf(shares, cash, trades)), ts, prices, cfg, allowBuys, date)
      {
        var t := ts[i];
        assert ts[i..][0] == t && ts[i..][1..] == ts[i + 1..];
        var price := prices[t.ticker];
        var delta := Times(total, t.weight) - Worth(shares, t.ticker, price);
        if Skipped(delta, allowBuys) {
          continue;
        }
        var tr, moved := TradeOf(delta, t, price, cfg, date), MovedShares(delta, price, cfg);
        shares := shares[t.ticker := Get(shares, t.ticker, 0.0) + moved];
        cash' := cash' - (Times(moved, tr.fill) + tr.commission);
        trades := trades + [tr];
      }
    }
  }

  // ---- what a rebalance costs ----

  /** Commission plus what slippage takes. */
  function Friction(tr: Trade): real {
    tr.commission + Times(tr.shares, Abs(tr.fill - tr.spot))
  }

  function Frictions(trs: seq<Trade>): real {
    if trs == [] then 0.0 else Frictions(trs[..|trs| - 1]) + Friction(trs[|trs| - 1])
  }

  function Commissions(trs: seq<Trade>): real {
    if trs == [] then 0.0 else Commissions(trs[..|trs| - 1]) + trs[|trs| - 1].commission
  }

  lemma FrictionsAppend(trs: seq<Trade>, tr: Trade)
    ensures Frictions(trs + [tr]) == Frictions(trs) + Friction(tr)
    ensures Commissions(trs + [tr]) == Commissions(trs) + tr.commission
  {
    assert (trs + [tr])[..|trs|] == trs;
  }

  lemma QuotientSign(d: real, f: real)
    requires f > 0.0
    ensures d > 0.0 ==> d / f > 0.0
    ensures d < 0.0 ==> d / f < 0.0
  {
    RatioTimes(d, f);
  }

  /** A trade pays exactly the wanted dollars; its commission is non-negative and zero exactly at a zero rate. */
  lemma TradeTerms(delta: real, t: Target, price: real, cfg: Config, date: Date)
    requires price > 0.0 && Costs(cfg) && delta != 0.0
    ensures var tr := TradeOf(delta, t, price, cfg, date);
            && tr.fill == FillPrice(delta, price, cfg)
            && Signed(tr) == MovedShares(delta, price, cfg) == delta / tr.fill
            && tr.shares > 0.0
            && Times(Signed(tr), tr.fill) == delta
            && tr.commission >= 0.0 && (tr.commission == 0.0 <==> cfg.tcostBps == 0.0)
  {
    FillPositive(delta, price, cfg);
    var fill := FillPrice(delta, price, cfg);
    hide FillPrice;
    RatioTimes(delta, fill);
    QuotientSign(delta, fill);
    var tr := TradeOf(delta, t, price, cfg, date);
    var gross := Times(Abs(delta / fill), fill);
    TimesSign(Abs(delta / fill), fill);
    CommissionSign(gross, cfg.tcostBps);
  }

  /**
   * One target of a rebalance, in dollars: under a dollar, or a buy while buys are off, does nothing; otherwise the
   * wanted dollars are traded at the price plus or minus slippage, and commission is charged on them.
   */
  lemma TradeInNumbers(pf: Pf, t: Target, total: real, price: real, cfg: Config, allowBuys: bool, date: Date)
    requires price > 0.0 && Costs(cfg)
    ensures var pf' := TradeOne(pf, t, total, price, cfg, allowBuys, date);
            var held := Get(pf.shares, t.ticker, 0.0);
            var wanted := total * t.weight - held * price;
            if -1.0 < wanted < 1.0 || (wanted > 0.0 && !allowBuys) then pf' == pf
            else
              && |pf'.trades| == |pf.trades| + 1 && pf'.trades[..|pf.trades|] == pf.trades
              && var tr := pf'.trades[|pf.trades|];
                 var dollars := if wanted > 0.0 then wanted else -wanted;
                 && tr.date == date && tr.ticker == t.ticker && tr.spot == price
                 && tr.side == (if wanted > 0.0 then Buy else Sell)
                 && tr.fill == (if wanted > 0.0 then price * (1.0 + cfg.slippageBps / 10000.0)
                                else price * (1.0 - cfg.slippageBps / 10000.0))
                 && tr.shares * tr.fill == dollars
                 && tr.commission == dollars * (cfg.tcostBps / 10000.0)
                 && pf'.cash == pf.cash - wanted - tr.commission
                 && pf'.shares == pf.shares[t.ticker := held + if wanted > 0.0 then tr.shares else -tr.shares]
  {
    var delta := Delta(pf, t, total, price);
    if !Skipped(delta, allowBuys) {
      TradeTerms(delta, t, price, cfg, date);
      var tr := TradeOf(delta, t, price, cfg, date);
      var dollars := if delta > 0.0 then delta else -delta;
      TimesSub(0.0, tr.shares, tr.fill);
      TimesZero(tr.fill);
      assert Times(tr.shares, tr.fill) == dollars;
      assert tr.commission == Times(dollars, cfg.tcostBps / 10000.0);
    }
  }

  lemma CommissionSign(gross: real, bps: real)
    requires gross > 0.0 && bps >= 0.0
    ensures Times(gross, bps / 10000.0) >= 0.0 && (Times(gross, bps / 10000.0) == 0.0 <==> bps == 0.0)
  {
    hide Times;
    if bps > 0.0 { TimesSign(gross, bps / 10000.0); } else { TimesZero(gross); }
  }

  /** Trading moves value by exactly minus the friction, which is non-negative and zero exactly when both rates are. */
  lemma FrictionIsLoss(delta: real, t: Target, price: real, cfg: Config, date: Date)
    requires price > 0.0 && Costs(cfg) && delta != 0.0
    ensures var tr := TradeOf(delta, t, price, cfg, date);
            && Times(Signed(tr), price) - (Times(Signed(tr), tr.fill) + tr.commission) == -Friction(tr)
            && Friction(tr) >= 0.0 && (Friction(tr) == 0.0 <==> cfg.tcostBps == 0.0 && cfg.slippageBps == 0.0)
  {
    TradeTerms(delta, t, price, cfg, date);
    FillPositive(delta, price, cfg);
    var tr := TradeOf(delta, t, price, cfg, date);
    assert tr.spot == price;
    SlippageTerm(tr.shares, tr.fill, price);
    hide Times, TradeOf, FillPrice;
  }

  lemma SlippageTerm(shares: real, fill: real, price: real)
    requires shares > 0.0
    ensures var cost := Times(shares, Abs(fill - price));
            && (fill >= price ==> Times(shares, price) - Times(shares, fill) == -cost)
            && (fill <= price ==> Times(-shares, price) - Times(-shares, fill) == -cost)
            && cost >= 0.0 && (cost == 0.0 <==> fill == price)
  {
    var gap := Abs(fill - price);
    if gap > 0.0 { TimesSign(shares, gap); }
  }

  /** Changing one holding changes equity by that holding's worth. */
  lemma {:induction false} EquityUpdate(shares: map<string, real>, ts: seq<Target>, prices: map<string, real>,
                                        t: string, d: real)
    requires Quoted(ts, prices) && Distinct(ts)
    ensures Equity(shares[t := Get(shares, t, 0.0) + d], ts, prices)
            == Equity(shares, ts, prices)
               + if exists i :: 0 <= i < |ts| && ts[i].ticker == t then Times(d, prices[t]) else 0.0
  {
    hide Times;
    if ts != [] {
      EquityUpdate(shares, ts[1..], prices, t, d);
      if ts[0].ticker == t {
        TimesSub(Get(shares, t, 0.0) + d, Get(shares, t, 0.0), prices[t]);
        assert Get(shares, t, 0.0) + d - Get(shares, t, 0.0) == d;
        assert !exists i :: 0 <= i < |ts[1..]| && ts[1..][i].ticker == t;
      } else if i :| 0 <= i < |ts| && ts[i].ticker == t {
        assert ts[1..][i - 1].ticker == t;
      }
    }
  }

  /** One trade lowers the portfolio's value by its friction and by nothing else. */
  lemma TradeOneValue(pf: Pf, ts: seq<Target>, k: nat, total: real, prices: map<string, real>, cfg: Config,
                      allowBuys: bool, date: Date)
    requires Priced(ts, prices) && Distinct(ts) && Costs(cfg) && k < |ts|
    ensures var pf' := TradeOne(pf, ts[k], total, prices[ts[k].ticker], cfg, allowBuys, date);
            && Value(pf', ts, prices) == Value(pf, ts, prices) - (Frictions(pf'.trades) - Frictions(pf.trades))
            && pf.trades <= pf'.trades
            && Frictions(pf'.trades) >= Frictions(pf.trades)
            && (Frictions(pf'.trades) == Frictions(pf.trades)
                <==> pf'.trades == pf.trades || (cfg.tcostBps == 0.0 && cfg.slippageBps == 0.0))
  {
    var t := ts[k];
    var price := prices[t.ticker];
    var delta := Delta(pf, t, total, price);
    if !Skipped(delta, allowBuys) {
      FrictionIsLoss(delta, t, price, cfg, date);
      var tr := TradeOf(delta, t, price, cfg, date);
      FrictionsAppend(pf.trades, tr);
      EquityUpdate(pf.shares, ts, prices, t.ticker, Signed(tr));
      hide Times, TradeOf, Friction, Delta;
      assert exists i :: 0 <= i < |ts| && ts[i].ticker == t.ticker;
    }
  }

  lemma {:induction false} RebalancedValue(pf: Pf, ts: seq<Target>, k: nat, total: real, prices: map<string, real>,
                                           cfg: Config, allowBuys: bool, date: Date)
    requires Priced(ts, prices) && Distinct(ts) && Costs(cfg) && k <= |ts|
    ensures var pf' := Rebalanced(pf, ts[k..], total, prices, cfg, allowBuys, date);
            && Value(pf', ts, prices) == Value(pf, ts, prices) - (Frictions(pf'.trades) - Frictions(pf.trades))
            && pf.trades <= pf'.trades
            && Frictions(pf'.trades) >= Frictions(pf.trades)
            && (Frictions(pf'.trades) == Frictions(pf.trades)
                <==> pf'.trades == pf.trades || (cfg.tcostBps == 0.0 && cfg.slippageBps == 0.0))
    decreases |ts| - k
  {
    hide TradeOne, Value, Frictions;
    if k < |ts| {
      assert ts[k..][0] == ts[k] && ts[k..][1..] == ts[k + 1..];
      TradeOneValue(pf, ts, k, total, prices, cfg, allowBuys, date);
      RebalancedValue(TradeOne(pf, ts[k], total, prices[ts[k].ticker], cfg, allowBuys, date), ts, k + 1, total, prices,
                      cfg, allowBuys, date);
    }
  }

  /** A rebalance never raises value; it keeps it exactly when it trades nothing or both cost rates are zero. */
  lemma RebalanceValue(pf: Pf, ts: seq<Target>, prices: map<string, real>, cfg: Config, allowBuys: bool, date: Date)
    requires Priced(ts, prices) && Distinct(ts) && Costs(cfg)
    ensures var pf' := Rebalance(pf, ts, prices, cfg, allowBuys, date);
            && Value(pf', ts, prices) == Value(pf, ts, prices) - (Frictions(pf'.trades) - Frictions(pf.trades))
            && pf.trades <= pf'.trades
            && Value(pf', ts, prices) <= Value(pf, ts, prices)
            && (Value(pf', ts, prices) == Value(pf, ts, prices)
                <==> pf'.trades == pf.trades || (cfg.tcostBps == 0.0 && cfg.slippageBps == 0.0))
  {
    assert ts[0..] == ts;
    RebalancedValue(pf, ts, 0, Value(pf, ts, prices), prices, cfg, allowBuys, date);
    hide Rebalanced, Value, Frictions;
  }

  // ---- cash and holdings after a rebalance ----

  function Weights(ts: seq<Target>): real {
    if ts == [] then 0.0 else ts[0].weight + Weights(ts[1..])
  }

  /** Dollars of wanted change left undone, and the number of tickers skipped as trivial. */
  function Undone(shares: map<string, real>, ts: seq<Target>, total: real, prices: map<string, real>, allowBuys: bool)
    : (real, nat)
    requires Quoted(ts, prices)
  {
    if ts == [] then (0.0, 0)
    else
      var delta := Times(total, ts[0].weight) - Worth(shares, ts[0].ticker, prices[ts[0].ticker]);
      var rest := Undone(shares, ts[1..], total, prices, allowBuys);
      (rest.0 + if Skipped(delta, allowBuys) then delta else 0.0, rest.1 + if Abs(delta) < 1.0 then 1 else 0)
  }

  /** Trading one ticker leaves the worth of every other holding alone. */
  lemma {:induction false} OthersUntouched(pf: Pf, t: Target, ts: seq<Target>, total: real, prices: map<string, real>,
                                           cfg: Config, allowBuys: bool, date: Date, price: real)
    requires Quoted(ts, prices) && Fillable(cfg) && price != 0.0
    requires forall u | u in ts :: u.ticker != t.ticker
    ensures var pf' := TradeOne(pf, t, total, price, cfg, allowBuys, date);
            && Undone(pf'.shares, ts, total, prices, allowBuys) == Undone(pf.shares, ts, total, prices, allowBuys)
            && Equity(pf'.shares, ts, prices) == Equity(pf.shares, ts, prices)
  {
    hide Times, Skipped, Abs, TradeOf;
    if ts != [] {
      OthersUntouched(pf, t, ts[1..], total, prices, cfg, allowBuys, date, price);
      assert ts[0] in ts;
    }
  }

  lemma {:induction false} CashAfterRest(pf: Pf, ts: seq<Target>, total: real, prices: map<string, real>, cfg: Config,
                                         allowBuys: bool, date: Date)
    requires Priced(ts, prices) && Distinct(ts) && Costs(cfg)
    ensures var pf' := Rebalanced(pf, ts, total, prices, cfg, allowBuys, date);
            pf'.cash == pf.cash + Equity(pf.shares, ts, prices) - Times(total, Weights(ts))
                        + Undone(pf.shares, ts, total, prices, allowBuys).0
                        - (Commissions(pf'.trades) - Commissions(pf.trades))
    decreases |ts|
  {
    if ts == [] {
      TimesZero(total);
    } else {
      var t, rest := ts[0], ts[1..];
      var price := prices[t.ticker];
      var delta := Delta(pf, t, total, price);
      var pf1 := TradeOne(pf, t, total, price, cfg, allowBuys, date);
      CashAfterRest(pf1, rest, total, prices, cfg, allowBuys, date);
      OthersUntouched(pf, t, rest, total, prices, cfg, allowBuys, date, price);
      TimesSub(Weights(ts), Weights(rest), total);
      assert Weights(ts) - Weights(rest) == t.weight;
      if !Skipped(delta, allowBuys) {
        TradeTerms(delta, t, price, cfg, date);
        FrictionsAppend(pf.trades, TradeOf(delta, t, price, cfg, date));
      }
      TimesSub(total, 0.0, t.weight);
      hide Times, TradeOf, Skipped, Abs, Commissions;
    }
  }

  lemma {:induction false} UndoneBound(shares: map<string, real>, ts: seq<Target>, total: real,
                                       prices: map<string, real>, allowBuys: bool)
    requires Quoted(ts, prices)
    ensures var u := Undone(shares, ts, total, prices, allowBuys); u.0 >= -(u.1 as real)
  {
    hide Times, Worth;
    if ts != [] { UndoneBound(shares, ts[1..], total, prices, allowBuys); }
  }

  /**
   * Cash after a rebalance: the uninvested share of value, plus the changes left undone, less commission; hence at
   * least V * (1 - sum of weights) - commission - one dollar per ticker skipped as trivial.
   */
  lemma CashAfterRebalance(pf: Pf, ts: seq<Target>, prices: map<string, real>, cfg: Config, allowBuys: bool, date: Date)
    requires Priced(ts, prices) && Distinct(ts) && Costs(cfg)
    ensures var v, pf' := Value(pf, ts, prices), Rebalance(pf, ts, prices, cfg, allowBuys, date);
            var undone := Undone(pf.shares, ts, v, prices, allowBuys);
            var paid := Commissions(pf'.trades) - Commissions(pf.trades);
            && pf'.cash == Times(v, 1.0 - Weights(ts)) + undone.0 - paid
            && pf'.cash >= Times(v, 1.0 - Weights(ts)) - paid - undone.1 as real
  {
    var v := Value(pf, ts, prices);
    CashAfterRest(pf, ts, v, prices, cfg, allowBuys, date);
    UndoneBound(pf.shares, ts, v, prices, allowBuys);
    TimesSub(1.0, Weights(ts), v);
    hide Times, Undone, Rebalanced;
    Unit(v);
  }

  lemma Unit(v: real)
    ensures Times(v, 1.0) == v && Times(1.0, v) == v
  {
  }

  /** A sell leaves a non-negative holding exactly when the target is at least slippage times the current worth. */
  lemma SellStaysLong(pf: Pf, t: Target, total: real, price: real, cfg: Config, allowBuys: bool, date: Date)
    requires price > 0.0 && Costs(cfg)
    requires Delta(pf, t, total, price) <= -1.0
    ensures var pf' := TradeOne(pf, t, total, price, cfg, allowBuys, date);
            Get(pf'.shares, t.ticker, 0.0) >= 0.0
            <==> Times(total, t.weight) >= Times(cfg.slippageBps / 10000.0, Worth(pf.shares, t.ticker, price))
  {
    var delta, s := Delta(pf, t, total, price), cfg.slippageBps / 10000.0;
    var held, fill := Get(pf.shares, t.ticker, 0.0), FillPrice(delta, price, cfg);
    FillPositive(delta, price, cfg);
    TradeTerms(delta, t, price, cfg, date);
    var pf' := TradeOne(pf, t, total, price, cfg, allowBuys, date);
    assert Get(pf'.shares, t.ticker, 0.0) == held + delta / fill;
    SignOfSum(held, delta, fill);
    assert held * fill == held * price - s * (held * price) by {
      assert fill == price * (1.0 - s);
      SellFill(held, price, s);
    }
  }

  lemma SellFill(held: real, price: real, s: real)
    ensures held * (price * (1.0 - s)) == held * price - s * (held * price)
  {
  }

  lemma SignOfSum(held: real, delta: real, fill: real)
    requires fill > 0.0
    ensures held + delta / fill >= 0.0 <==> held * fill + delta >= 0.0
  {
    var x := held + delta / fill;
    assert x * fill == held * fill + delta by { RatioTimes(delta, fill); }
    if x >= 0.0 {
      assert x * fill >= 0.0;
    } else {
      TimesSign(-x, fill);
    }
  }

  /** Concretely: closing a $1000 position at 10 bps of slippage ends short. */
  lemma FullExitGoesShort(date: Date)
    ensures var cfg := Config("never", 5.0, 20.0, 1.0, 0.0, 0.0, 0.0, 10.0);
            var pf := Pf(map["A" := 100.0], 0.0, []);
            Get(TradeOne(pf, Target("A", 0.0), 1000.0, 10.0, cfg, true, date).shares, "A", 0.0) < 0.0
  {
    var cfg := Config("never", 5.0, 20.0, 1.0, 0.0, 0.0, 0.0, 10.0);
    var pf := Pf(map["A" := 100.0], 0.0, []);
    assert Delta(pf, Target("A", 0.0), 1000.0, 10.0) == -1000.0;
    SellStaysLong(pf, Target("A", 0.0), 1000.0, 10.0, cfg, true, date);
  }
}
