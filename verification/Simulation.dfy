/** The day loop of the backtest: cash yield, drawdown pause, rebalance calendar and drift bands. */
module Simulation {
  import opened Basics
  import opened Backtest

  datatype DayRow = DayRow(date: Date, prices: map<string, real>)

  datatype Sim = Sim(pf: Pf, runningMax: real, values: seq<real>, prev: Option<Date>)

  datatype Outcome = Done(values: seq<real>, trades: seq<Trade>) | WeightsTooLarge | UnknownMode

  // ---- when to rebalance ----

  /** Drift beyond a band: the thresholds are widened on the underweight side. */
  predicate Breach(current: real, target: real, cfg: Config) {
    var mult := Max(1.0, cfg.bandBuyMult);
    var signed := (current - target) * 100.0;
    var drift := if signed > 0.0 then signed else -signed;
    var absThr := if signed > 0.0 then cfg.bandAbs else cfg.bandAbs * mult;
    var relThr := if signed > 0.0 then cfg.bandRel else cfg.bandRel * mult;
    var relDrift := if target > 0.0 then drift / (target * 100.0) * 100.0 else 0.0;
    drift > absThr || relDrift > relThr
  }

  function Quarter(d: Date): int {
    (d.month - 1) / 3
  }

  /** `None` is the error for an unknown mode, which the first day never reaches. */
  function IsRebalanceDay(date: Date, prev: Option<Date>, cfg: Config, current: map<string, real>, ts: seq<Target>)
    : Option<bool>
  {
    if prev.None? then Some(true)
    else if cfg.mode == "never" then Some(false)
    else if cfg.mode == "monthly" then Some(date.month != prev.value.month)
    else if cfg.mode == "quarterly" then
      Some(Quarter(date) != Quarter(prev.value) || date.year != prev.value.year)
    else if cfg.mode == "bands" then Some(exists t | t in ts :: Breach(Get(current, t.ticker, 0.0), t.weight, cfg))
    else None
  }

  function CurrentWeights(shares: map<string, real>, ts: seq<Target>, prices: map<string, real>, total: real)
    : map<string, real>
    requires Quoted(ts, prices)
  {
    map x | x in (set t | t in ts :: t.ticker) :: if total > 0.0 then Worth(shares, x, prices[x]) / total else 0.0
  }

  // ---- one day, and a run of days ----

  predicate QuotedRows(ts: seq<Target>, rows: seq<DayRow>) {
    forall r | r in rows :: Quoted(ts, r.prices)
  }

  predicate PricedRows(ts: seq<Target>, rows: seq<DayRow>) {
    forall r | r in rows :: Priced(ts, r.prices)
  }

  function Accrued(s: Sim, cfg: Config): Pf {
    s.pf.(cash := Times(s.pf.cash, 1.0 + cfg.dailyRate))
  }

  function Peak(s: Sim, row: DayRow, ts: seq<Target>, cfg: Config): real
    requires Quoted(ts, row.prices)
  {
    Max(s.runningMax, Value(Accrued(s, cfg), ts, row.prices))
  }

  /** Drawdown in percent, measured before the day's trades. */
  function PreTradeDrawdown(s: Sim, row: DayRow, ts: seq<Target>, cfg: Config): real
    requires Quoted(ts, row.prices)
  {
    var peak := Peak(s, row, ts, cfg);
    if peak > 0.0 then (Value(Accrued(s, cfg), ts, row.prices) / peak - 1.0) * 100.0 else 0.0
  }

  predicate DeepDrawdown(s: Sim, row: DayRow, ts: seq<Target>, cfg: Config)
    requires Quoted(ts, row.prices)
  {
    cfg.ddPause > 0.0 && PreTradeDrawdown(s, row, ts, cfg) < -cfg.ddPause
  }

  function Day(s: Sim, row: DayRow, ts: seq<Target>, cfg: Config): Option<Sim>
    requires Quoted(ts, row.prices) && Fillable(cfg)
  {
    var pf := Accrued(s, cfg);
    var total := Value(pf, ts, row.prices);
    var decision := IsRebalanceDay(row.date, s.prev, cfg, CurrentWeights(pf.shares, ts, row.prices, total), ts);
    if decision.None? then None
    else
      var pf' := if decision.value
                 then Rebalance(pf, ts, row.prices, cfg, !DeepDrawdown(s, row, ts, cfg), row.date) else pf;
      Some(Sim(pf', Peak(s, row, ts, cfg), s.values + [Value(pf', ts, row.prices)], Some(row.date)))
  }

  function Run(rows: seq<DayRow>, ts: seq<Target>, initCash: real, cfg: Config): Option<Sim>
    requires QuotedRows(ts, rows) && Fillable(cfg)
  {
    if rows == [] then Some(Sim(Pf(map[], initCash, []), initCash, [], None))
    else
      var s := Run(rows[..|rows| - 1], ts, initCash, cfg);
      if s.None? then None else Day(s.value, rows[|rows| - 1], ts, cfg)
  }

  function Kept(weights: seq<Target>, columns: set<string>): seq<Target> {
    if weights == [] then []
    else if weights[0].ticker in columns then [weights[0]] + Kept(weights[1..], columns)
    else Kept(weights[1..], columns)
  }

  /** A target is kept exactly when it has a price column, and the rest keep their order. */
  lemma {:induction false} KeptMeaning(weights: seq<Target>, more: seq<Target>, columns: set<string>)
    ensures forall t :: t in Kept(weights, columns) <==> t in weights && t.ticker in columns
    ensures Kept(weights + more, columns) == Kept(weights, columns) + Kept(more, columns)
  {
    if weights == [] {
      assert weights + more == more;
    } else {
      assert (weights + more)[1..] == weights[1..] + more;
      KeptMeaning(weights[1..], more, columns);
      assert forall t :: t in weights <==> t == weights[0] || t in weights[1..];
    }
  }

  method KeepListed(weights: seq<Target>, columns: set<string>) returns (ts: seq<Target>)
    ensures ts == Kept(weights, columns)
  {
    ts := [];
    for i := 0 to |weights|
      invariant ts + Kept(weights[i..], columns) == Kept(weights, columns)
    {
      assert weights[i..][0] == weights[i] && weights[i..][1..] == weights[i + 1..];
      if weights[i].ticker in columns {
        ts := ts + [weights[i]];
      }
    }
  }

  /** The body of the day loop; false is the unknown-mode error. */
  method StepDay(account: Account, cash: real, runningMax: real, values: seq<real>, prev: Option<Date>, row: DayRow,
                 ts: seq<Target>, cfg: Config)
    returns (ok: bool, cash': real, runningMax': real, values': seq<real>)
    requires Quoted(ts, row.prices) && Fillable(cfg)
    modifies account
    ensures var next := Day(old(Sim(Pf(account.shares, cash, account.trades), runningMax, values, prev)), row, ts, cfg);
            && ok == next.Some?
            && (ok ==> next.value
                       == Sim(Pf(account.shares, cash', account.trades), runningMax', values', Some(row.date)))
  {
    hide Times, Rebalance, Equity, IsRebalanceDay, CurrentWeights;
    cash' := Times(cash, 1.0 + cfg.dailyRate);
    var totalBefore := cash' + Equity(account.shares, ts, row.prices);
    runningMax' := Max(runningMax, totalBefore);
    var dd := if runningMax' > 0.0 then (totalBefore / runningMax' - 1.0) * 100.0 else 0.0;
    var deep := cfg.ddPause > 0.0 && dd < -cfg.ddPause;
    var current := CurrentWeights(account.shares, ts, row.prices, totalBefore);
    var decision := IsRebalanceDay(row.date, prev, cfg, current, ts);
    if decision.None? {
      return false, cash', runningMax', values;
    }
    if decision.value {
      cash' := account.ExecuteRebalance(cash', ts, row.prices, cfg, !deep, row.date);
    }
    ok := true;
    values' := values + [cash' + Equity(account.shares, ts, row.prices)];
  }

  /** The simulation loop; prices are known and non-zero for every kept ticker on every row. */
  method SimulatePortfolio(rows: seq<DayRow>, columns: set<string>, weights: seq<Target>, initCash: real, cfg: Config)
    returns (r: Outcome)
    requires QuotedRows(Kept(weights, columns), rows) && Fillable(cfg)
    ensures Weights(weights) > 1.0 + 0.000000001 ==> r == WeightsTooLarge
    ensures Weights(weights) <= 1.0 + 0.000000001 ==>
              var s := Run(rows, Kept(weights, columns), initCash, cfg);
              r == if s.None? then UnknownMode else Done(s.value.values, s.value.pf.trades)
  {
    if Weights(weights) > 1.0 + 0.000000001 {
      return WeightsTooLarge;
    }
    var ts := KeepListed(weights, columns);
    var account := new Account();
    var cash, runningMax, values := initCash, initCash, [];
    var prev: Option<Date> := None;
    hide Day;
    for i := 0 to |rows|
      invariant Run(rows[..i], ts, initCash, cfg)
             == Some(Sim(Pf(account.shares, cash, account.trades), runningMax, values, prev))
      invariant fresh(account)
    {
      assert rows[..i + 1][..i] == rows[..i];
      var ok;
      ok, cash, runningMax, values := StepDay(account, cash, runningMax, values, prev, rows[i], ts, cfg);
      if !ok {
        RunStops(rows, i + 1, ts, initCash, cfg);
        return UnknownMode;
      }
      prev := Some(rows[i].date);
    }
    assert rows[..|rows|] == rows;
    r := Done(values, account.trades);
  }

  lemma {:induction false} RunStops(rows: seq<DayRow>, k: nat, ts: seq<Target>, initCash: real, cfg: Config)
    requires QuotedRows(ts, rows) && Fillable(cfg) && k <= |rows|
    requires Run(rows[..k], ts, initCash, cfg).None?
    ensures Run(rows, ts, initCash, cfg).None?
  {
    if k == |rows| {
      assert rows[..k] == rows;
    } else {
      assert rows[..|rows| - 1][..k] == rows[..k];
      RunStops(rows[..|rows| - 1], k, ts, initCash, cfg);
    }
  }

  /** Only an unknown mode fails, and only once there is a second day. */
  lemma {:induction false} RunFails(rows: seq<DayRow>, ts: seq<Target>, initCash: real, cfg: Config)
    requires QuotedRows(ts, rows) && Fillable(cfg)
    ensures Run(rows, ts, initCash, cfg).Some?
            <==> |rows| <= 1 || cfg.mode == "never" || cfg.mode == "monthly" || cfg.mode == "quarterly"
                 || cfg.mode == "bands"
    ensures Run(rows, ts, initCash, cfg).Some? && rows != [] ==>
              Run(rows, ts, initCash, cfg).value.prev == Some(rows[|rows| - 1].date)
    ensures Run(rows, ts, initCash, cfg).Some? && rows == [] ==> Run(rows, ts, initCash, cfg).value.prev == None
  {
    hide Rebalance, Value, DeepDrawdown, CurrentWeights, Accrued, Peak, Breach;
    if rows != [] { RunFails(rows[..|rows| - 1], ts, initCash, cfg); }
  }

  // ---- which rows rebalance, from dates and weights ----

  /** The row's state is that of a rebalance of the accrued account; or of the accrued account itself. */
  predicate Rebalances(s: Sim, s': Sim, row: DayRow, ts: seq<Target>, cfg: Config)
    requires Quoted(ts, row.prices) && Fillable(cfg)
  {
    s'.pf == Rebalance(Accrued(s, cfg), ts, row.prices, cfg, !DeepDrawdown(s, row, ts, cfg), row.date)
  }

  predicate Rests(s: Sim, s': Sim, cfg: Config) {
    && s'.pf.shares == s.pf.shares && s'.pf.trades == s.pf.trades
    && s'.pf.cash == s.pf.cash * (1.0 + cfg.dailyRate)
  }

  /**
   * Off target by more than the bands: in percentage points or in percent of the target, both widened, by a multiplier
   * of at least one, on the underweight side only.
   */
  predicate OffBand(current: real, w: real, cfg: Config) {
    var (points, absThr, relThr) := BandTerms(current, w, cfg);
    OffBy(points, w, absThr, relThr)
  }

  /** Points off target, and the two thresholds on that side. */
  function BandTerms(current: real, w: real, cfg: Config): (real, real, real) {
    if current > w then (100.0 * (current - w), cfg.bandAbs, cfg.bandRel)
    else
      var m := if cfg.bandBuyMult > 1.0 then cfg.bandBuyMult else 1.0;
      (100.0 * (w - current), cfg.bandAbs * m, cfg.bandRel * m)
  }

  /** More than `absThr` points, or more than `relThr` percent of a positive target. */
  predicate OffBy(points: real, w: real, absThr: real, relThr: real) {
    points > absThr || (if w > 0.0 then points > relThr * w else 0.0 > relThr)
  }

  function WeightOf(shares: map<string, real>, t: string, price: real, total: real): real {
    if total > 0.0 then Get(shares, t, 0.0) * price / total else 0.0
  }

  /** One side of a band, absolute and relative. */
  predicate Beyond(drift: real, w: real, absThr: real, relThr: real) {
    drift > absThr || (if w > 0.0 then drift / (w * 100.0) * 100.0 else 0.0) > relThr
  }

  lemma BeyondInNumbers(drift: real, w: real, absThr: real, relThr: real)
    ensures Beyond(drift, w, absThr, relThr) <==> OffBy(drift, w, absThr, relThr)
  {
    if w > 0.0 { RelativeIs(drift, w, relThr); }
  }

  lemma BreachInNumbers(current: real, w: real, cfg: Config)
    ensures Breach(current, w, cfg) <==> OffBand(current, w, cfg)
  {
    BreachIsBeyond(current, w, cfg);
    hide Breach, Beyond, BandTerms, OffBy;
    var (points, absThr, relThr) := BandTerms(current, w, cfg);
    BeyondInNumbers(points, w, absThr, relThr);
  }

  lemma BreachIsBeyond(current: real, w: real, cfg: Config)
    ensures var (points, absThr, relThr) := BandTerms(current, w, cfg);
            Breach(current, w, cfg) <==> Beyond(points, w, absThr, relThr)
  {
    assert (current - w) * 100.0 == 100.0 * (current - w) && -((current - w) * 100.0) == 100.0 * (w - current);
    assert (current - w) * 100.0 > 0.0 <==> current > w;
  }

  lemma RelativeIs(drift: real, w: real, thr: real)
    requires w > 0.0
    ensures drift / (w * 100.0) * 100.0 > thr <==> drift > thr * w
  {
    var x := drift / (w * 100.0);
    assert x * (w * 100.0) == drift;
    var y := x * 100.0;
    assert y * w == drift;
    RatioAbove(y, thr, w);
  }

  lemma RatioAbove(y: real, thr: real, w: real)
    requires w > 0.0
    ensures y > thr <==> y * w > thr * w
  {
    if y > thr { assert (y - thr) * w > 0.0; } else { assert (thr - y) * w >= 0.0; }
  }

  /** What row `i` of a run does. */
  lemma RowIsDay(rows: seq<DayRow>, ts: seq<Target>, initCash: real, cfg: Config, i: nat)
    requires QuotedRows(ts, rows) && Fillable(cfg) && i < |rows|
    requires Run(rows[..i + 1], ts, initCash, cfg).Some?
    ensures Run(rows[..i], ts, initCash, cfg).Some?
    ensures var s := Run(rows[..i], ts, initCash, cfg).value;
            && Run(rows[..i + 1], ts, initCash, cfg) == Day(s, rows[i], ts, cfg)
            && s.prev == if i == 0 then None else Some(rows[i - 1].date)
  {
    assert rows[..i + 1][..i] == rows[..i];
    RunFails(rows[..i], ts, initCash, cfg);
    hide Day;
  }

  /**
   * The calendar over a whole run: the first row always rebalances; after it, never, or exactly when the month, the
   * quarter or its year differs from the previous row's, or exactly when some target is off its bands.
   */
  lemma RebalanceCalendar(rows: seq<DayRow>, ts: seq<Target>, initCash: real, cfg: Config, i: nat)
    requires QuotedRows(ts, rows) && Fillable(cfg) && i < |rows|
    requires Run(rows[..i], ts, initCash, cfg).Some? && Run(rows[..i + 1], ts, initCash, cfg).Some?
    ensures var s, s' := Run(rows[..i], ts, initCash, cfg).value, Run(rows[..i + 1], ts, initCash, cfg).value;
            var row, d := rows[i], rows[i].date;
            if i == 0 then Rebalances(s, s', row, ts, cfg)
            else
              var before := rows[i - 1].date;
              && (cfg.mode == "never" ==> Rests(s, s', cfg))
              && (cfg.mode == "monthly" ==>
                    if d.month == before.month then Rests(s, s', cfg) else Rebalances(s, s', row, ts, cfg))
              && (cfg.mode == "quarterly" ==>
                    if (d.month - 1) / 3 == (before.month - 1) / 3 && d.year == before.year then Rests(s, s', cfg)
                    else Rebalances(s, s', row, ts, cfg))
              && (cfg.mode == "bands" ==>
                    var total := Value(Accrued(s, cfg), ts, row.prices);
                    if exists t :: t in ts && OffBand(WeightOf(s.pf.shares, t.ticker, row.prices[t.ticker], total),
                                                      t.weight, cfg)
                    then Rebalances(s, s', row, ts, cfg) else Rests(s, s', cfg))
  {
    RowIsDay(rows, ts, initCash, cfg, i);
    hide Run, Day, Rebalances, Rests, OffBand, WeightOf, Value, Accrued;
    var s := Run(rows[..i], ts, initCash, cfg).value;
    if i > 0 {
      if cfg.mode == "bands" {
        DayByBands(s, rows[i], ts, cfg);
      } else {
        DayByDate(s, rows[i], ts, cfg, rows[i - 1].date);
      }
    } else {
      FirstDay(s, rows[i], ts, cfg);
    }
  }

  /** The day's decision, in the engine's own terms. */
  function Decision(s: Sim, row: DayRow, ts: seq<Target>, cfg: Config): Option<bool>
    requires Quoted(ts, row.prices)
  {
    var total := Value(Accrued(s, cfg), ts, row.prices);
    IsRebalanceDay(row.date, s.prev, cfg, CurrentWeights(Accrued(s, cfg).shares, ts, row.prices, total), ts)
  }

  lemma DayFollows(s: Sim, row: DayRow, ts: seq<Target>, cfg: Config)
    requires Quoted(ts, row.prices) && Fillable(cfg) && Decision(s, row, ts, cfg).Some?
    ensures Day(s, row, ts, cfg).Some?
    ensures var s' := Day(s, row, ts, cfg).value;
            if Decision(s, row, ts, cfg).value then Rebalances(s, s', row, ts, cfg) else Rests(s, s', cfg)
  {
    hide Rebalance, Value, DeepDrawdown, CurrentWeights, IsRebalanceDay, Peak;
  }

  lemma FirstDay(s: Sim, row: DayRow, ts: seq<Target>, cfg: Config)
    requires Quoted(ts, row.prices) && Fillable(cfg) && s.prev == None
    ensures Day(s, row, ts, cfg).Some? && Rebalances(s, Day(s, row, ts, cfg).value, row, ts, cfg)
  {
    assert Decision(s, row, ts, cfg) == Some(true);
    DayFollows(s, row, ts, cfg);
    hide Day, Rebalances, Rests;
  }

  lemma DayByDate(s: Sim, row: DayRow, ts: seq<Target>, cfg: Config, before: Date)
    requires Quoted(ts, row.prices) && Fillable(cfg) && s.prev == Some(before) && Day(s, row, ts, cfg).Some?
    ensures var s' := Day(s, row, ts, cfg).value;
            && (cfg.mode == "never" ==> Rests(s, s', cfg))
            && (cfg.mode == "monthly" ==>
                  if row.date.month == before.month then Rests(s, s', cfg) else Rebalances(s, s', row, ts, cfg))
            && (cfg.mode == "quarterly" ==>
                  if (row.date.month - 1) / 3 == (before.month - 1) / 3 && row.date.year == before.year
                  then Rests(s, s', cfg) else Rebalances(s, s', row, ts, cfg))
  {
    hide Value, CurrentWeights, Breach, Rebalances, Rests;
    assert Decision(s, row, ts, cfg).Some? by { hide Rebalance, Peak, DeepDrawdown; }
    hide Day;
    DayFollows(s, row, ts, cfg);
  }

  lemma DayByBands(s: Sim, row: DayRow, ts: seq<Target>, cfg: Config)
    requires Quoted(ts, row.prices) && Fillable(cfg) && s.prev.Some? && cfg.mode == "bands"
    ensures Day(s, row, ts, cfg).Some?
    ensures var s', total := Day(s, row, ts, cfg).value, Value(Accrued(s, cfg), ts, row.prices);
            if exists t :: t in ts && OffBand(WeightOf(s.pf.shares, t.ticker, row.prices[t.ticker], total),
                                              t.weight, cfg)
            then Rebalances(s, s', row, ts, cfg) else Rests(s, s', cfg)
  {
    hide Value, CurrentWeights, Breach, OffBand, WeightOf, Rebalances, Rests, Day;
    BandsInNumbers(s, row, ts, cfg);
    DayFollows(s, row, ts, cfg);
  }

  lemma BandsInNumbers(s: Sim, row: DayRow, ts: seq<Target>, cfg: Config)
    requires Quoted(ts, row.prices)
    ensures var total := Value(Accrued(s, cfg), ts, row.prices);
            var current := CurrentWeights(Accrued(s, cfg).shares, ts, row.prices, total);
            (exists t :: t in ts && Breach(Get(current, t.ticker, 0.0), t.weight, cfg))
            <==> exists t :: t in ts && OffBand(WeightOf(s.pf.shares, t.ticker, row.prices[t.ticker], total),
                                                t.weight, cfg)
  {
    hide Breach, OffBand, Value;
    var total := Value(Accrued(s, cfg), ts, row.prices);
    var current := CurrentWeights(Accrued(s, cfg).shares, ts, row.prices, total);
    forall t | t in ts
      ensures Breach(Get(current, t.ticker, 0.0), t.weight, cfg)
              <==> OffBand(WeightOf(s.pf.shares, t.ticker, row.prices[t.ticker], total), t.weight, cfg)
    {
      assert t.ticker in (set u | u in ts :: u.ticker);
      assert Get(current, t.ticker, 0.0) == WeightOf(s.pf.shares, t.ticker, row.prices[t.ticker], total);
      BreachInNumbers(WeightOf(s.pf.shares, t.ticker, row.prices[t.ticker], total), t.weight, cfg);
    }
  }

  /** Under "never" nothing is traded after the first row. */
  lemma {:induction false} NeverTradesOnce(rows: seq<DayRow>, ts: seq<Target>, initCash: real, cfg: Config)
    requires QuotedRows(ts, rows) && Fillable(cfg) && rows != [] && cfg.mode == "never"
    ensures Run(rows, ts, initCash, cfg).Some? && Run(rows[..1], ts, initCash, cfg).Some?
    ensures var first, last := Run(rows[..1], ts, initCash, cfg).value, Run(rows, ts, initCash, cfg).value;
            last.pf.trades == first.pf.trades && last.pf.shares == first.pf.shares
  {
    var n := |rows| - 1;
    RunFails(rows, ts, initCash, cfg);
    RunFails(rows[..1], ts, initCash, cfg);
    RunFails(rows[..n], ts, initCash, cfg);
    assert rows[..n + 1] == rows;
    if n > 0 {
      assert rows[..n][..1] == rows[..1];
      NeverTradesOnce(rows[..n], ts, initCash, cfg);
      RebalanceCalendar(rows, ts, initCash, cfg, n);
    }
    hide Run;
  }

  // ---- the drawdown pause, in numbers ----

  /** Deep means: more than `dd_buy_pause_pct` percent below the peak, the pre-trade value included. */
  lemma PauseInNumbers(s: Sim, row: DayRow, ts: seq<Target>, cfg: Config)
    requires Quoted(ts, row.prices)
    ensures var v := Value(Accrued(s, cfg), ts, row.prices);
            var peak := if v > s.runningMax then v else s.runningMax;
            DeepDrawdown(s, row, ts, cfg)
            <==> cfg.ddPause > 0.0 && peak > 0.0 && 100.0 * (peak - v) > cfg.ddPause * peak
  {
    var v := Value(Accrued(s, cfg), ts, row.prices);
    var peak := if v > s.runningMax then v else s.runningMax;
    hide Value;
    assert Peak(s, row, ts, cfg) == peak;
    if peak > 0.0 {
      var y := (1.0 - v / peak) * 100.0;
      assert (v / peak) * peak == v;
      assert y * peak == 100.0 * (peak - v);
      RatioAbove(y, cfg.ddPause, peak);
    }
  }

  function PreTradeValue(rows: seq<DayRow>, k: nat, ts: seq<Target>, initCash: real, cfg: Config): real
    requires QuotedRows(ts, rows) && Fillable(cfg) && k < |rows| && Run(rows[..k], ts, initCash, cfg).Some?
  {
    Value(Accrued(Run(rows[..k], ts, initCash, cfg).value, cfg), ts, rows[k].prices)
  }

  /** `m` is the largest of the initial cash and the pre-trade values of the first `n` rows. */
  predicate IsPeak(rows: seq<DayRow>, n: nat, ts: seq<Target>, initCash: real, cfg: Config, m: real)
    requires QuotedRows(ts, rows) && Fillable(cfg) && n <= |rows|
    requires forall k | 0 <= k < n :: Run(rows[..k], ts, initCash, cfg).Some?
  {
    && initCash <= m
    && (forall k: nat | k < n :: PreTradeValue(rows, k, ts, initCash, cfg) <= m)
    && (m == initCash || exists k: nat :: k < n && PreTradeValue(rows, k, ts, initCash, cfg) == m)
  }

  /** The running maximum of a run is that peak, at every point of it. */
  lemma {:induction false} PeakOfRun(rows: seq<DayRow>, ts: seq<Target>, initCash: real, cfg: Config, n: nat)
    requires QuotedRows(ts, rows) && Fillable(cfg) && n <= |rows|
    requires forall k | 0 <= k <= n :: Run(rows[..k], ts, initCash, cfg).Some?
    ensures IsPeak(rows, n, ts, initCash, cfg, Run(rows[..n], ts, initCash, cfg).value.runningMax)
  {
    if n == 0 {
      assert rows[..0] == [];
    } else {
      PeakOfRun(rows, ts, initCash, cfg, n - 1);
      var before := Run(rows[..n - 1], ts, initCash, cfg).value.runningMax;
      RowIsDay(rows, ts, initCash, cfg, n - 1);
      hide Run, Value;
      assert Run(rows[..n], ts, initCash, cfg).value.runningMax
          == Max(before, PreTradeValue(rows, n - 1, ts, initCash, cfg));
      hide Day, PreTradeValue;
    }
  }

  // ---- conservation over a whole run ----

  /** Interest credited over the run. */
  function Interest(rows: seq<DayRow>, ts: seq<Target>, initCash: real, cfg: Config): real
    requires QuotedRows(ts, rows) && Fillable(cfg)
  {
    if rows == [] || Run(rows[..|rows| - 1], ts, initCash, cfg).None? then 0.0
    else
      var init := rows[..|rows| - 1];
      Interest(init, ts, initCash, cfg) + Times(Run(init, ts, initCash, cfg).value.pf.cash, cfg.dailyRate)
  }

  /** Sum over tickers of shares held times the price change. */
  function PriceGain(shares: map<string, real>, ts: seq<Target>, before: map<string, real>, after: map<string, real>)
    : real
    requires Quoted(ts, before) && Quoted(ts, after)
  {
    if ts == [] then 0.0
    else
      Times(Get(shares, ts[0].ticker, 0.0), after[ts[0].ticker] - before[ts[0].ticker])
      + PriceGain(shares, ts[1..], before, after)
  }

  function MarketGain(rows: seq<DayRow>, ts: seq<Target>, initCash: real, cfg: Config): real
    requires QuotedRows(ts, rows) && Fillable(cfg)
  {
    if |rows| < 2 || Run(rows[..|rows| - 1], ts, initCash, cfg).None? then 0.0
    else
      var n := |rows|;
      var init := rows[..n - 1];
      MarketGain(init, ts, initCash, cfg)
      + PriceGain(Run(init, ts, initCash, cfg).value.pf.shares, ts, rows[n - 2].prices, rows[n - 1].prices)
  }

  lemma {:induction false} EquityGain(shares: map<string, real>, ts: seq<Target>, before: map<string, real>,
                                      after: map<string, real>)
    requires Quoted(ts, before) && Quoted(ts, after)
    ensures Equity(shares, ts, after) == Equity(shares, ts, before) + PriceGain(shares, ts, before, after)
  {
    hide Times;
    if ts != [] {
      EquityGain(shares, ts[1..], before, after);
      TimesSub(after[ts[0].ticker], before[ts[0].ticker], Get(shares, ts[0].ticker, 0.0));
    }
  }

  lemma {:induction false} NoShares(ts: seq<Target>, prices: map<string, real>)
    requires Quoted(ts, prices)
    ensures Equity(map[], ts, prices) == 0.0
  {
    if ts != [] {
      NoShares(ts[1..], prices);
      TimesZero(prices[ts[0].ticker]);
    }
  }

  lemma Accrual(cash: real, rate: real)
    ensures Times(cash, 1.0 + rate) == cash + Times(cash, rate)
  {
  }

  /** One day: trading changes value by exactly minus the day's frictions, and never upward. */
  lemma DayValue(s: Sim, row: DayRow, ts: seq<Target>, cfg: Config)
    requires Priced(ts, row.prices) && Costs(cfg) && Distinct(ts) && Day(s, row, ts, cfg).Some?
    ensures var s' := Day(s, row, ts, cfg).value;
            var before := Value(Accrued(s, cfg), ts, row.prices);
            && s'.values == s.values + [Value(s'.pf, ts, row.prices)]
            && Value(s'.pf, ts, row.prices) == before - (Frictions(s'.pf.trades) - Frictions(s.pf.trades))
            && Value(s'.pf, ts, row.prices) <= before <= s'.runningMax
            && s.runningMax <= s'.runningMax
            && s.pf.trades <= s'.pf.trades
  {
    RebalanceValue(Accrued(s, cfg), ts, row.prices, cfg, !DeepDrawdown(s, row, ts, cfg), row.date);
    hide Rebalance, Value, DeepDrawdown, Frictions;
  }

  /** The same day as an account: cash, interest and shares before, minus the day's frictions. */
  lemma DayAccount(s: Sim, row: DayRow, ts: seq<Target>, cfg: Config)
    requires Priced(ts, row.prices) && Costs(cfg) && Distinct(ts) && Day(s, row, ts, cfg).Some?
    ensures var s' := Day(s, row, ts, cfg).value;
            var v := Value(s'.pf, ts, row.prices);
            && s'.values == s.values + [v]
            && v == s.pf.cash + Times(s.pf.cash, cfg.dailyRate) + Equity(s.pf.shares, ts, row.prices)
                    - (Frictions(s'.pf.trades) - Frictions(s.pf.trades))
  {
    DayValue(s, row, ts, cfg);
    hide Times, Day, Frictions, Equity;
    Accrual(s.pf.cash, cfg.dailyRate);
  }

  /**
   * Self-financing: final value = initial cash + interest + price gains on shares held - commissions and slippage,
   * over any price series.
   */
  lemma {:induction false} SelfFinancing(rows: seq<DayRow>, ts: seq<Target>, initCash: real, cfg: Config)
    requires PricedRows(ts, rows) && Costs(cfg) && Distinct(ts) && rows != []
    requires Run(rows, ts, initCash, cfg).Some?
    ensures var s := Run(rows, ts, initCash, cfg).value;
            && |s.values| == |rows|
            && s.values[|rows| - 1] == Value(s.pf, ts, rows[|rows| - 1].prices)
            && s.values[|rows| - 1]
               == initCash + Interest(rows, ts, initCash, cfg) + MarketGain(rows, ts, initCash, cfg)
                  - Frictions(s.pf.trades)
  {
    var n := |rows| - 1;
    var init, row := rows[..n], rows[n];
    var s := Run(init, ts, initCash, cfg).value;
    hide Times, Day, Frictions, Equity, PriceGain;
    DayAccount(s, row, ts, cfg);
    if n == 0 {
      assert init == [];
      NoShares(ts, row.prices);
      FrictionsNone();
    } else {
      SelfFinancing(init, ts, initCash, cfg);
      EquityGain(s.pf.shares, ts, rows[n - 1].prices, row.prices);
      hide Run;
    }
  }

  lemma FrictionsNone()
    ensures Frictions([]) == 0.0
  {
  }

  /** No recorded value exceeds the running maximum the drawdown pause is measured from. */
  lemma {:induction false} ValuesBelowPeak(rows: seq<DayRow>, ts: seq<Target>, initCash: real, cfg: Config)
    requires PricedRows(ts, rows) && Costs(cfg) && Distinct(ts) && Run(rows, ts, initCash, cfg).Some?
    ensures var s := Run(rows, ts, initCash, cfg).value;
            forall v | v in s.values :: v <= s.runningMax
    ensures initCash <= Run(rows, ts, initCash, cfg).value.runningMax
  {
    if rows != [] {
      var n := |rows| - 1;
      ValuesBelowPeak(rows[..n], ts, initCash, cfg);
      DayValue(Run(rows[..n], ts, initCash, cfg).value, rows[n], ts, cfg);
      hide Day, Value;
    }
  }

  lemma {:induction false} NoBuysWhenPaused(pf: Pf, ts: seq<Target>, total: real, prices: map<string, real>,
                                            cfg: Config, date: Date)
    requires Quoted(ts, prices) && Fillable(cfg)
    ensures var pf' := Rebalanced(pf, ts, total, prices, cfg, false, date);
            && pf.trades <= pf'.trades
            && forall k | |pf.trades| <= k < |pf'.trades| :: pf'.trades[k].side == Sell
    decreases |ts|
  {
    if ts != [] {
      var pf1 := TradeOne(pf, ts[0], total, prices[ts[0].ticker], cfg, false, date);
      assert pf.trades <= pf1.trades && forall k | |pf.trades| <= k < |pf1.trades| :: pf1.trades[k].side == Sell by {
        hide Times, FillPrice, Worth;
      }
      NoBuysWhenPaused(pf1, ts[1..], total, prices, cfg, date);
      hide TradeOne;
      forall k | |pf.trades| <= k < |pf1.trades|
        ensures Rebalanced(pf1, ts[1..], total, prices, cfg, false, date).trades[k] == pf1.trades[k]
      {
      }
    }
  }

  /** On a day whose pre-trade drawdown is deeper than the pause level, nothing is bought. */
  lemma PauseStopsBuying(s: Sim, row: DayRow, ts: seq<Target>, cfg: Config)
    requires Quoted(ts, row.prices) && Fillable(cfg) && Day(s, row, ts, cfg).Some?
    requires cfg.ddPause > 0.0 && PreTradeDrawdown(s, row, ts, cfg) < -cfg.ddPause
    ensures var s' := Day(s, row, ts, cfg).value;
            && s.pf.trades <= s'.pf.trades
            && forall k | |s.pf.trades| <= k < |s'.pf.trades| :: s'.pf.trades[k].side == Sell
  {
    var pf := Accrued(s, cfg);
    NoBuysWhenPaused(pf, ts, Value(pf, ts, row.prices), row.prices, cfg, row.date);
    hide Value, Rebalanced, CurrentWeights, PreTradeDrawdown;
  }

  // ---- drift bands are quiet right after a frictionless rebalance ----

  lemma {:induction false} HoldingKept(pf: Pf, ts: seq<Target>, total: real, prices: map<string, real>, cfg: Config,
                                       date: Date, x: string)
    requires Quoted(ts, prices) && Fillable(cfg) && forall t | t in ts :: t.ticker != x
    ensures Get(Rebalanced(pf, ts, total, prices, cfg, true, date).shares, x, 0.0) == Get(pf.shares, x, 0.0)
    decreases |ts|
  {
    if ts != [] {
      var pf1 := TradeOne(pf, ts[0], total, prices[ts[0].ticker], cfg, true, date);
      HoldingKept(pf1, ts[1..], total, prices, cfg, date, x);
      assert ts[0] in ts;
      hide Times, Skipped, TradeOf;
    }
  }

  predicate Near(worth: real, total: real, w: real) {
    Abs(worth - Times(total, w)) < 1.0
  }

  /** A frictionless trade lands on the target; a skipped one is within a dollar of it. */
  lemma OnTarget(pf: Pf, t: Target, total: real, price: real, cfg: Config, date: Date)
    requires price > 0.0 && Costs(cfg) && cfg.slippageBps == 0.0
    ensures var pf' := TradeOne(pf, t, total, price, cfg, true, date);
            Near(Worth(pf'.shares, t.ticker, price), total, t.weight)
  {
    var delta := Delta(pf, t, total, price);
    if !Skipped(delta, true) {
      TradeTerms(delta, t, price, cfg, date);
      FillPositive(delta, price, cfg);
      var tr := TradeOf(delta, t, price, cfg, date);
      var held := Get(pf.shares, t.ticker, 0.0);
      hide FillPrice, TradeOf;
      TimesSub(held + Signed(tr), held, price);
      assert held + Signed(tr) - held == Signed(tr);
      hide Times;
    }
  }

  lemma {:induction false} AllOnTarget(pf: Pf, ts: seq<Target>, total: real, prices: map<string, real>, cfg: Config,
                                       date: Date)
    requires Priced(ts, prices) && Costs(cfg) && Distinct(ts) && cfg.slippageBps == 0.0
    ensures var pf' := Rebalanced(pf, ts, total, prices, cfg, true, date);
            forall t | t in ts :: Near(Worth(pf'.shares, t.ticker, prices[t.ticker]), total, t.weight)
    decreases |ts|
  {
    hide Times, TradeOne, Near;
    if ts != [] {
      var pf1 := TradeOne(pf, ts[0], total, prices[ts[0].ticker], cfg, true, date);
      OnTarget(pf, ts[0], total, prices[ts[0].ticker], cfg, date);
      AllOnTarget(pf1, ts[1..], total, prices, cfg, date);
      HoldingKept(pf1, ts[1..], total, prices, cfg, date, ts[0].ticker);
      assert forall t | t in ts :: t == ts[0] || t in ts[1..];
    }
  }

  /** Bands of at least 100/V points, and of at least 100/(V*w) percent for a positive weight. */
  predicate WideBands(cfg: Config, v: real, w: real)
    requires v > 0.0
  {
    && w >= 0.0
    && cfg.bandAbs >= 100.0 / v
    && cfg.bandRel >= if w > 0.0 then 100.0 / (v * w) else 0.0
  }

  /** Being within a dollar of target is inside bands of at least 100/V points and 100/(V*w) percent. */
  lemma WithinADollar(worth: real, w: real, v: real, cfg: Config)
    requires v > 0.0 && WideBands(cfg, v, w) && Near(worth, v, w)
    ensures !Breach(worth / v, w, cfg)
  {
    var gap, unit := worth / v - w, 1.0 / v;
    RatioTimes(worth, v);
    RatioTimes(1.0, v);
    QuotientSign(1.0, v);
    TimesSub(worth / v, w, v);
    Bounded(gap, unit, v);
    assert 100.0 / v == 100.0 * unit;
    if w > 0.0 { RelativeDrift(Abs(gap), unit, v, w); }
    NoBreach(worth / v, w, cfg);
  }

  lemma NoBreach(current: real, w: real, cfg: Config)
    requires w >= 0.0 && cfg.bandAbs >= 0.0 && cfg.bandRel >= 0.0
    requires Abs(current - w) * 100.0 <= cfg.bandAbs
    requires w > 0.0 ==> (Abs(current - w) * 100.0) / (w * 100.0) * 100.0 <= cfg.bandRel
    ensures !Breach(current, w, cfg)
  {
    var mult := Max(1.0, cfg.bandBuyMult);
    Widened(cfg.bandAbs, mult);
    Widened(cfg.bandRel, mult);
    var signed := (current - w) * 100.0;
    assert Abs(current - w) * 100.0 == if signed > 0.0 then signed else -signed;
  }

  lemma Bounded(gap: real, unit: real, v: real)
    requires v > 0.0 && Times(unit, v) == 1.0 && Abs(Times(gap, v)) < 1.0
    ensures Abs(gap) < unit
  {
    Smaller(gap, unit, v);
    TimesSub(0.0, gap, v);
    TimesZero(v);
    Smaller(0.0 - gap, unit, v);
  }

  lemma Smaller(a: real, b: real, v: real)
    requires v > 0.0 && Times(a, v) < Times(b, v)
    ensures a < b
  {
    if a >= b { NotSmaller(a, b, v); }
  }

  lemma NotSmaller(a: real, b: real, v: real)
    requires v > 0.0 && a >= b
    ensures Times(a, v) >= Times(b, v)
  {
    TimesSub(a, b, v);
    TimesSign(a - b, v);
  }

  lemma RelativeDrift(gap: real, unit: real, v: real, w: real)
    requires v > 0.0 && w > 0.0 && Times(unit, v) == 1.0 && 0.0 <= gap < unit
    ensures (gap * 100.0) / (w * 100.0) * 100.0 < 100.0 / (v * w)
  {
    var x, y := gap / w, unit / w;
    assert x * w == gap && y * w == unit;
    assert x < y;
    assert (gap * 100.0) / (w * 100.0) == x;
    assert y * (v * w) == 1.0 by { assert y * (v * w) == (y * w) * v; }
    assert 100.0 / (v * w) == 100.0 * y;
  }

  lemma Widened(band: real, mult: real)
    requires band >= 0.0 && mult >= 1.0
    ensures band <= band * mult
  {
  }

  /**
   * After a frictionless, unrestricted rebalance of a positive portfolio, the bands do not fire again at the same
   * prices when they are at least 100/V points wide, and 100/(V*w) percent for every positive weight.
   */
  lemma BandsQuietAfterRebalance(pf: Pf, ts: seq<Target>, prices: map<string, real>, cfg: Config, date: Date,
                                 next: Date)
    requires Priced(ts, prices) && Costs(cfg) && Distinct(ts)
    requires cfg.tcostBps == 0.0 && cfg.slippageBps == 0.0 && cfg.mode == "bands"
    requires Value(pf, ts, prices) > 0.0 && forall t | t in ts :: WideBands(cfg, Value(pf, ts, prices), t.weight)
    ensures var pf' := Rebalance(pf, ts, prices, cfg, true, date);
            var total := Value(pf', ts, prices);
            IsRebalanceDay(next, Some(date), cfg, CurrentWeights(pf'.shares, ts, prices, total), ts) == Some(false)
  {
    hide WideBands, Near, Breach, Times;
    var v := Value(pf, ts, prices);
    RebalanceValue(pf, ts, prices, cfg, true, date);
    AllOnTarget(pf, ts, v, prices, cfg, date);
    BandsQuiet(Rebalance(pf, ts, prices, cfg, true, date).shares, ts, prices, v, cfg);
    hide Rebalanced, CurrentWeights, Value;
  }

  lemma BandsQuiet(shares: map<string, real>, ts: seq<Target>, prices: map<string, real>, v: real, cfg: Config)
    requires Priced(ts, prices) && v > 0.0 && forall t | t in ts :: WideBands(cfg, v, t.weight)
    requires forall t | t in ts :: Near(Worth(shares, t.ticker, prices[t.ticker]), v, t.weight)
    ensures var current := CurrentWeights(shares, ts, prices, v);
            forall t | t in ts :: !Breach(Get(current, t.ticker, 0.0), t.weight, cfg)
  {
    hide Breach, Worth, Near, WideBands;
    var current := CurrentWeights(shares, ts, prices, v);
    forall t | t in ts ensures !Breach(Get(current, t.ticker, 0.0), t.weight, cfg) {
      WithinADollar(Worth(shares, t.ticker, prices[t.ticker]), t.weight, v, cfg);
      assert t.ticker in (set u | u in ts :: u.ticker);
    }
  }
}
