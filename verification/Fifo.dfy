/** First-in-first-out realised profit over a stream of fills (src/agentic_investor/ops/ab_report.py). */
module Fifo {
  import opened Basics
  import opened Text

  /** One row of `paper_orders`; `qty` and `px` are nullable columns. */
  datatype Order = Order(ticker: string, side: string, qty: Option<real>, px: Option<real>)

  datatype Lot = Lot(qty: real, px: real)

  datatype Summary = Summary(nOrders: nat, buys: real, sells: real, realized: real)

  function Num(x: Option<real>): real {
    if x.Some? then x.value else 0.0
  }

  function LotsOf(fifo: map<string, seq<Lot>>, t: string): seq<Lot> {
    if t in fifo then fifo[t] else []
  }

  predicate Live(o: Order) {
    Num(o.qty) != 0.0 && Num(o.px) != 0.0
  }

  // ---- what one pass over the orders computes, ticker by ticker ----

  /** Sell `remaining` shares at `px` out of `lots`, oldest lot first: the lots left and the profit taken. */
  function Close(lots: seq<Lot>, remaining: real, px: real): (r: (seq<Lot>, real))
    decreases |lots|, if remaining > 0.0 then 1 else 0
  {
    if remaining <= 0.0 || lots == [] then (lots, 0.0)
    else
      var m := Min(lots[0].qty, remaining);
      var gain := Times(m, px - lots[0].px);
      var rest := if m >= lots[0].qty then lots[1..] else [Lot(lots[0].qty - m, lots[0].px)] + lots[1..];
      var r := Close(rest, remaining - m, px);
      (r.0, gain + r.1)
  }

  datatype Book = Book(lots: seq<Lot>, buys: real, sells: real, realized: real)

  /** The account of one ticker after `orders`, every other ticker's orders being ignored. */
  function BookOf(orders: seq<Order>, t: string): Book {
    if orders == [] then Book([], 0.0, 0.0, 0.0)
    else Post(BookOf(orders[..|orders| - 1], t), orders[|orders| - 1], t)
  }

  function Post(b: Book, o: Order, t: string): Book {
    if !Live(o) || Upper(o.ticker) != t then b
    else
      var qty, px := Num(o.qty), Num(o.px);
      if o.side == "buy" then b.(lots := b.lots + [Lot(qty, px)], buys := b.buys + Times(qty, px))
      else
        var r := Close(b.lots, qty, px);
        b.(lots := r.0, sells := b.sells + Times(qty, px), realized := b.realized + r.1)
  }

  function SumBuys(orders: seq<Order>, ts: seq<string>): real {
    if ts == [] then 0.0 else BookOf(orders, ts[0]).buys + SumBuys(orders, ts[1..])
  }

  function SumSells(orders: seq<Order>, ts: seq<string>): real {
    if ts == [] then 0.0 else BookOf(orders, ts[0]).sells + SumSells(orders, ts[1..])
  }

  function SumRealized(orders: seq<Order>, ts: seq<string>): real {
    if ts == [] then 0.0 else BookOf(orders, ts[0]).realized + SumRealized(orders, ts[1..])
  }

  /** `ts` lists every traded ticker, each once, in any order. */
  ghost predicate Roster(orders: seq<Order>, ts: seq<string>) {
    && (forall i, j | 0 <= i < j < |ts| :: ts[i] != ts[j])
    && (forall o | o in orders :: Upper(o.ticker) in ts)
  }

  lemma {:induction false} SumsEmpty(ts: seq<string>)
    ensures SumBuys([], ts) == 0.0 && SumSells([], ts) == 0.0 && SumRealized([], ts) == 0.0
  {
    if ts != [] { SumsEmpty(ts[1..]); }
  }

  /** Every history has such a list. */
  lemma {:induction false} RosterExists(orders: seq<Order>) returns (ts: seq<string>)
    ensures Roster(orders, ts)
  {
    if orders == [] {
      ts := [];
    } else {
      ts := RosterExists(orders[1..]);
      var t := Upper(orders[0].ticker);
      if t !in ts { ts := ts + [t]; }
      assert forall o | o in orders :: o == orders[0] || o in orders[1..];
    }
  }

  /** Other tickers' orders never touch the account of `t`. */
  function Only(orders: seq<Order>, t: string): seq<Order> {
    if orders == [] then []
    else
      var init, o := Only(orders[..|orders| - 1], t), orders[|orders| - 1];
      if Upper(o.ticker) == t then init + [o] else init
  }

  lemma {:induction false} BookIgnoresOthers(orders: seq<Order>, t: string)
    ensures BookOf(Only(orders, t), t) == BookOf(orders, t)
  {
    if orders != [] {
      BookIgnoresOthers(orders[..|orders| - 1], t);
      var o := orders[|orders| - 1];
      if Upper(o.ticker) == t {
        assert Only(orders, t)[..|Only(orders, t)| - 1] == Only(orders[..|orders| - 1], t);
      }
    }
  }

  /** One more order moves each total by what it does to that order's own ticker. */
  lemma {:induction false} SumsAppend(orders: seq<Order>, o: Order, ts: seq<string>)
    requires forall i, j | 0 <= i < j < |ts| :: ts[i] != ts[j]
    ensures var t := Upper(o.ticker);
            var before := BookOf(orders, t);
            var after := Post(before, o, t);
            && SumBuys(orders + [o], ts) == SumBuys(orders, ts) + (if t in ts then after.buys - before.buys else 0.0)
            && SumSells(orders + [o], ts)
               == SumSells(orders, ts) + (if t in ts then after.sells - before.sells else 0.0)
            && SumRealized(orders + [o], ts)
               == SumRealized(orders, ts) + (if t in ts then after.realized - before.realized else 0.0)
  {
    hide Close, Times;
    if ts != [] {
      assert (orders + [o])[..|orders|] == orders;
      assert ts == [ts[0]] + ts[1..];
      SumsAppend(orders, o, ts[1..]);
    }
  }

  /** The inner loop of a sell: lots are closed oldest first until the quantity or the list runs out. */
  method CloseLots(fifo: map<string, seq<Lot>>, tk: string, qty: real, px: real)
    returns (fifo': map<string, seq<Lot>>, gain: real)
    ensures (LotsOf(fifo', tk), gain) == Close(LotsOf(fifo, tk), qty, px)
    ensures forall t | t != tk :: LotsOf(fifo', t) == LotsOf(fifo, t)
  {
    hide Times;
    fifo' := fifo;
    gain := 0.0;
    var remaining := qty;
    ghost var whole := Close(LotsOf(fifo, tk), qty, px);
    while remaining > 0.0 && LotsOf(fifo', tk) != []
      invariant Close(LotsOf(fifo', tk), remaining, px).0 == whole.0
      invariant gain + Close(LotsOf(fifo', tk), remaining, px).1 == whole.1
      invariant forall t | t != tk :: LotsOf(fifo', t) == LotsOf(fifo, t)
      decreases |LotsOf(fifo', tk)|, if remaining > 0.0 then 1 else 0
    {
      var lots := fifo'[tk];
      var head := lots[0];
      var m := Min(head.qty, remaining);
      gain := gain + Times(m, px - head.px);
      remaining := remaining - m;
      if m >= head.qty {
        fifo' := fifo'[tk := lots[1..]];
      } else {
        fifo' := fifo'[tk := [Lot(head.qty - m, head.px)] + lots[1..]];
      }
    }
  }

  /** The order-summary loop: one lot list per ticker, totals shared by all tickers. */
  method SummarizeOrders(orders: seq<Order>) returns (s: Summary, fifo: map<string, seq<Lot>>)
    ensures s.nOrders == |orders|
    ensures forall t :: LotsOf(fifo, t) == BookOf(orders, t).lots
    ensures forall ts | Roster(orders, ts) ::
              s.buys == SumBuys(orders, ts) && s.sells == SumSells(orders, ts) && s.realized == SumRealized(orders, ts)
  {
    hide Times, Close;
    var buys, sells, realized := 0.0, 0.0, 0.0;
    fifo := map[];
    forall ts | Roster(orders, ts) { SumsEmpty(ts); }
    for i := 0 to |orders|
      invariant forall t :: LotsOf(fifo, t) == BookOf(orders[..i], t).lots
      invariant forall ts | Roster(orders, ts) ::
          && buys == SumBuys(orders[..i], ts) && sells == SumSells(orders[..i], ts)
          && realized == SumRealized(orders[..i], ts)
    {
      var o := orders[i];
      assert orders[..i + 1] == orders[..i] + [o];
      assert (orders[..i] + [o])[..i] == orders[..i];
      forall ts | Roster(orders, ts) { SumsAppend(orders[..i], o, ts); }
      var qty, px := Num(o.qty), Num(o.px);
      if qty == 0.0 || px == 0.0 {
        continue;
      }
      var tk := Upper(o.ticker);
      if o.side == "buy" {
        buys := buys + Times(qty, px);
        fifo := fifo[tk := LotsOf(fifo, tk) + [Lot(qty, px)]];
      } else {
        sells := sells + Times(qty, px);
        var gain;
        fifo, gain := CloseLots(fifo, tk, qty, px);
        realized := realized + gain;
      }
    }
    assert orders[..|orders|] == orders;
    s := Summary(|orders|, buys, sells, realized);
  }

  // ---- the closed form ----

  function Overlap(a: real, b: real, c: real, d: real): real {
    Max(0.0, Min(b, d) - Max(a, c))
  }

  /** Total quantity and total cost of a list of lots. */
  function Qty(lots: seq<Lot>): real {
    if lots == [] then 0.0 else lots[0].qty + Qty(lots[1..])
  }

  function Cost(lots: seq<Lot>): real {
    if lots == [] then 0.0 else Times(lots[0].qty, lots[0].px) + Cost(lots[1..])
  }

  /** Profit of selling at `px` the shares number `lo` to `hi` of a buy tape whose first lot starts at share `off`. */
  function Gain(tape: seq<Lot>, off: real, lo: real, hi: real, px: real): real {
    if tape == [] then 0.0
    else
      Times(Overlap(off, off + tape[0].qty, lo, hi), px - tape[0].px)
      + Gain(tape[1..], off + tape[0].qty, lo, hi, px)
  }

  /** Every live buy of `t`, in order. */
  function Tape(orders: seq<Order>, t: string): seq<Lot> {
    if orders == [] then []
    else
      var init, o := Tape(orders[..|orders| - 1], t), orders[|orders| - 1];
      if Live(o) && Upper(o.ticker) == t && o.side == "buy" then init + [Lot(Num(o.qty), Num(o.px))] else init
  }

  predicate SellOf(o: Order, t: string) {
    Live(o) && Upper(o.ticker) == t && o.side != "buy"
  }

  /** Shares of `t` sold so far, and the part of them that found a lot to close. */
  function Sold(orders: seq<Order>, t: string): real {
    if orders == [] then 0.0
    else
      var o := orders[|orders| - 1];
      Sold(orders[..|orders| - 1], t) + if SellOf(o, t) then Num(o.qty) else 0.0
  }

  function Matched(orders: seq<Order>, t: string): real {
    if orders == [] then 0.0
    else
      var init, o := orders[..|orders| - 1], orders[|orders| - 1];
      if SellOf(o, t) then Min(Matched(init, t) + Num(o.qty), Qty(Tape(init, t))) else Matched(init, t)
  }

  /** Sum over sells j and buys i of overlap([B(i-1), B(i)], [M(j-1), M(j)]) * (sell price - buy price). */
  function ClosedForm(orders: seq<Order>, t: string, tape: seq<Lot>): real {
    if orders == [] then 0.0
    else
      var init, o := orders[..|orders| - 1], orders[|orders| - 1];
      ClosedForm(init, t, tape)
      + if SellOf(o, t) then Gain(tape, 0.0, Matched(init, t), Matched(orders, t), Num(o.px)) else 0.0
  }

  ghost predicate NonNegative(orders: seq<Order>) {
    forall o | o in orders :: Num(o.qty) >= 0.0
  }

  ghost predicate Positive(lots: seq<Lot>) {
    forall l | l in lots :: l.qty > 0.0
  }

  /** No sell exceeds the shares bought before it and not yet sold. */
  ghost predicate NoOversell(orders: seq<Order>, t: string) {
    forall k | 0 <= k <= |orders| :: Sold(orders[..k], t) <= Qty(Tape(orders[..k], t))
  }

  /** What is left of a tape once its first `x` shares are gone. */
  function DropQty(tape: seq<Lot>, x: real): seq<Lot> {
    if tape == [] || x <= 0.0 then tape
    else if x >= tape[0].qty then DropQty(tape[1..], x - tape[0].qty)
    else [Lot(tape[0].qty - x, tape[0].px)] + tape[1..]
  }

  lemma {:induction false} QtyNonNegative(lots: seq<Lot>)
    requires Positive(lots)
    ensures Qty(lots) >= 0.0
  {
    if lots != [] { QtyNonNegative(lots[1..]); }
  }

  lemma {:induction false} GainShift(tape: seq<Lot>, off: real, lo: real, hi: real, px: real, d: real)
    ensures Gain(tape, off, lo, hi, px) == Gain(tape, off - d, lo - d, hi - d, px)
  {
    hide Times;
    if tape != [] {
      GainShift(tape[1..], off + tape[0].qty, lo, hi, px, d);
      assert off + tape[0].qty - d == off - d + tape[0].qty;
    }
  }

  lemma {:induction false} GainBeyond(tape: seq<Lot>, off: real, lo: real, hi: real, px: real)
    requires Positive(tape) && (hi <= off || hi <= lo)
    ensures Gain(tape, off, lo, hi, px) == 0.0
  {
    hide Times;
    if tape != [] {
      TimesZero(px - tape[0].px);
      GainBeyond(tape[1..], off + tape[0].qty, lo, hi, px);
    }
  }

  /** An interval that starts before the tape may as well start with it. */
  lemma {:induction false} GainClip(tape: seq<Lot>, off: real, lo: real, hi: real, px: real)
    requires Positive(tape) && lo <= 0.0 <= off
    ensures Gain(tape, off, lo, hi, px) == Gain(tape, off, 0.0, hi, px)
  {
    hide Times;
    if tape != [] { GainClip(tape[1..], off + tape[0].qty, lo, hi, px); }
  }

  /** The gain of an interval splits into the first lot's part and the rest, re-based to the second lot. */
  lemma GainCons(tape: seq<Lot>, lo: real, hi: real, px: real)
    requires tape != []
    ensures var q := tape[0].qty;
            Gain(tape, 0.0, lo, hi, px)
            == Times(Overlap(0.0, q, lo, hi), px - tape[0].px) + Gain(tape[1..], 0.0, lo - q, hi - q, px)
  {
    hide Times, Overlap;
    GainShift(tape[1..], tape[0].qty, lo, hi, px, tape[0].qty);
  }

  /** Closing `r` shares of a tape already consumed up to `x` takes exactly the next shares in tape order. */
  lemma {:induction false} CloseOnTape(tape: seq<Lot>, x: real, r: real, px: real)
    requires Positive(tape) && 0.0 <= x <= Qty(tape) && r >= 0.0
    ensures var y := Min(x + r, Qty(tape));
            Close(DropQty(tape, x), r, px) == (DropQty(tape, y), Gain(tape, 0.0, x, y, px))
    decreases |tape|, 1
  {
    var y := Min(x + r, Qty(tape));
    if tape == [] {
    } else if r == 0.0 {
      GainBeyond(tape, 0.0, x, y, px);
      hide Times, Gain, DropQty, Qty;
    } else if x < tape[0].qty {
      CloseHead(tape, x, r, px);
      hide Times, Gain, Close, DropQty, Qty;
    } else {
      var q, rest := tape[0].qty, tape[1..];
      hide Times, Gain, Close;
      CloseOnTape(rest, x - q, r, px);
      GainSkipHead(tape, x, y, px);
      assert Qty(tape) == q + Qty(rest);
      hide Qty;
    }
  }

  lemma GainSkipHead(tape: seq<Lot>, x: real, y: real, px: real)
    requires tape != [] && Positive(tape) && tape[0].qty <= x <= y
    ensures var q := tape[0].qty; Gain(tape, 0.0, x, y, px) == Gain(tape[1..], 0.0, x - q, y - q, px)
  {
    hide Times, Gain;
    GainCons(tape, x, y, px);
    TimesZero(px - tape[0].px);
  }

  lemma {:induction false} CloseHead(tape: seq<Lot>, x: real, r: real, px: real)
    requires tape != [] && Positive(tape) && 0.0 <= x < tape[0].qty && r > 0.0
    ensures var y := Min(x + r, Qty(tape));
            Close(DropQty(tape, x), r, px) == (DropQty(tape, y), Gain(tape, 0.0, x, y, px))
    decreases |tape|, 0
  {
    var q, rest := tape[0].qty, tape[1..];
    QtyNonNegative(rest);
    if r < q - x {
      CloseWithinHead(tape, x, r, px);
    } else {
      var y := Min(x + r, Qty(tape));
      CloseOnTape(rest, 0.0, r - (q - x), px);
      CloseWholeHead(tape, x, r, px);
      GainWholeHead(tape, x, y, px);
      hide Times, Gain, Close;
      assert Qty(tape) == q + Qty(rest);
      assert DropQty(tape, y) == DropQty(rest, y - q);
      hide Qty, DropQty;
    }
  }

  lemma CloseWholeHead(tape: seq<Lot>, x: real, r: real, px: real)
    requires tape != [] && 0.0 <= x < tape[0].qty && r >= tape[0].qty - x
    ensures var q := tape[0].qty;
            Close(DropQty(tape, x), r, px) == (Close(tape[1..], r - (q - x), px).0,
                                               Times(q - x, px - tape[0].px) + Close(tape[1..], r - (q - x), px).1)
  {
    hide Times;
    var lots := DropQty(tape, x);
    assert lots[0] == Lot(tape[0].qty - x, tape[0].px) && lots[1..] == tape[1..];
  }

  lemma GainWholeHead(tape: seq<Lot>, x: real, y: real, px: real)
    requires tape != [] && Positive(tape) && 0.0 <= x < tape[0].qty <= y
    ensures var q := tape[0].qty;
            Gain(tape, 0.0, x, y, px) == Times(q - x, px - tape[0].px) + Gain(tape[1..], 0.0, 0.0, y - q, px)
  {
    hide Times, Gain;
    GainCons(tape, x, y, px);
    GainClip(tape[1..], 0.0, x - tape[0].qty, y - tape[0].qty, px);
  }

  lemma CloseWithinHead(tape: seq<Lot>, x: real, r: real, px: real)
    requires tape != [] && Positive(tape) && 0.0 <= x && 0.0 < r < tape[0].qty - x
    ensures Close(DropQty(tape, x), r, px) == (DropQty(tape, x + r), Gain(tape, 0.0, x, x + r, px))
  {
    hide Times, Gain;
    var q := tape[0].qty;
    var lots := DropQty(tape, x);
    assert lots[0] == Lot(q - x, tape[0].px) && lots[1..] == tape[1..];
    var left := [Lot(q - x - r, tape[0].px)] + lots[1..];
    assert Close(left, 0.0, px) == (left, 0.0);
    GainCons(tape, x, x + r, px);
    GainBeyond(tape[1..], 0.0, x - q, x + r - q, px);
  }

  lemma {:induction false} TapeAppend(tape: seq<Lot>, l: Lot)
    ensures Qty(tape + [l]) == Qty(tape) + l.qty
    ensures Cost(tape + [l]) == Cost(tape) + Times(l.qty, l.px)
  {
    hide Times;
    if tape == [] {
      assert [l][1..] == [];
    } else {
      assert (tape + [l])[1..] == tape[1..] + [l];
      TapeAppend(tape[1..], l);
    }
  }

  lemma {:induction false} GainAppend(tape: seq<Lot>, l: Lot, off: real, lo: real, hi: real, px: real)
    requires l.qty > 0.0 && hi <= off + Qty(tape)
    ensures Gain(tape + [l], off, lo, hi, px) == Gain(tape, off, lo, hi, px)
  {
    hide Times;
    if tape == [] {
      TimesZero(px - l.px);
    } else {
      assert (tape + [l])[1..] == tape[1..] + [l];
      GainAppend(tape[1..], l, off + tape[0].qty, lo, hi, px);
    }
  }

  lemma {:induction false} DropAppend(tape: seq<Lot>, l: Lot, x: real)
    requires Positive(tape) && 0.0 <= x <= Qty(tape) && l.qty > 0.0
    ensures DropQty(tape + [l], x) == DropQty(tape, x) + [l]
  {
    if tape != [] {
      assert (tape + [l])[1..] == tape[1..] + [l];
      QtyNonNegative(tape[1..]);
      if x >= tape[0].qty { DropAppend(tape[1..], l, x - tape[0].qty); }
    }
  }

  lemma {:induction false} TapeBounds(orders: seq<Order>, t: string)
    requires NonNegative(orders)
    ensures Positive(Tape(orders, t)) && 0.0 <= Matched(orders, t) <= Qty(Tape(orders, t))
    ensures Matched(orders, t) <= Sold(orders, t)
  {
    if orders != [] {
      var init, o := orders[..|orders| - 1], orders[|orders| - 1];
      TapeBounds(init, t);
      TapeAppend(Tape(init, t), Lot(Num(o.qty), Num(o.px)));
    }
  }

  /** A later buy does not change what earlier sells earned. */
  lemma {:induction false} ClosedFormAppend(orders: seq<Order>, t: string, tape: seq<Lot>, l: Lot)
    requires NonNegative(orders) && Positive(tape) && l.qty > 0.0 && Qty(Tape(orders, t)) <= Qty(tape)
    ensures ClosedForm(orders, t, tape + [l]) == ClosedForm(orders, t, tape)
  {
    if orders != [] {
      var init, o := orders[..|orders| - 1], orders[|orders| - 1];
      TapeBounds(orders, t);
      TapeBounds(init, t);
      TapeAppend(Tape(init, t), Lot(Num(o.qty), Num(o.px)));
      ClosedFormAppend(init, t, tape, l);
      if SellOf(o, t) { GainAppend(tape, l, 0.0, Matched(init, t), Matched(orders, t), Num(o.px)); }
    }
  }

  /** Main result: the loop's realised profit is the double sum over buys and sells, oversold shares excluded. */
  lemma {:induction false} RealizedIsClosedForm(orders: seq<Order>, t: string)
    requires NonNegative(orders)
    ensures BookOf(orders, t).lots == DropQty(Tape(orders, t), Matched(orders, t))
    ensures BookOf(orders, t).realized == ClosedForm(orders, t, Tape(orders, t))
  {
    hide Times;
    if orders != [] {
      var init, o := orders[..|orders| - 1], orders[|orders| - 1];
      var tape := Tape(init, t);
      RealizedIsClosedForm(init, t);
      TapeBounds(init, t);
      if Live(o) && Upper(o.ticker) == t {
        if o.side == "buy" {
          var l := Lot(Num(o.qty), Num(o.px));
          DropAppend(tape, l, Matched(init, t));
          ClosedFormAppend(init, t, tape, l);
        } else {
          CloseOnTape(tape, Matched(init, t), Num(o.qty), Num(o.px));
        }
      }
    }
  }

  /** The matched quantity is the sold quantity exactly when nothing is oversold. */
  lemma {:induction false} MatchedIsSold(orders: seq<Order>, t: string)
    requires NonNegative(orders)
    ensures NoOversell(orders, t) <==> Matched(orders, t) == Sold(orders, t)
  {
    if orders == [] {
      assert forall k | 0 <= k <= |orders| :: orders[..k] == [];
    } else {
      var n := |orders| - 1;
      var init := orders[..n];
      MatchedIsSold(init, t);
      TapeBounds(init, t);
      TapeBounds(orders, t);
      assert forall k | 0 <= k <= n :: init[..k] == orders[..k];
      assert orders[..|orders|] == orders;
      assert NoOversell(orders, t) <==> NoOversell(init, t) && Sold(orders, t) <= Qty(Tape(orders, t));
    }
  }

  /** Rows with a missing or zero quantity or price change no account. */
  lemma ZeroRowsIgnored(orders: seq<Order>, o: Order, t: string)
    requires o.qty.None? || o.qty.value == 0.0 || o.px.None? || o.px.value == 0.0
    ensures BookOf(orders + [o], t) == BookOf(orders, t)
  {
    assert (orders + [o])[..|orders|] == orders;
  }

  /** Every other row is a buy or a sell at its own quantity and price; whatever is not a buy is a sell. */
  lemma RowsInNumbers(orders: seq<Order>, o: Order, qty: real, px: real)
    requires o.qty == Some(qty) && o.px == Some(px) && qty != 0.0 && px != 0.0
    ensures var b, b' := BookOf(orders, Upper(o.ticker)), BookOf(orders + [o], Upper(o.ticker));
            if o.side == "buy" then
              b' == b.(lots := b.lots + [Lot(qty, px)], buys := b.buys + qty * px)
            else
              b'.buys == b.buys && b'.sells == b.sells + qty * px
  {
    assert (orders + [o])[..|orders|] == orders;
    hide Close;
  }

  /** The same double sum with the quantities sold in place of the quantities matched. */
  function SoldForm(orders: seq<Order>, t: string, tape: seq<Lot>): real {
    if orders == [] then 0.0
    else
      var init, o := orders[..|orders| - 1], orders[|orders| - 1];
      SoldForm(init, t, tape)
      + if SellOf(o, t) then Gain(tape, 0.0, Sold(init, t), Sold(orders, t), Num(o.px)) else 0.0
  }

  lemma {:induction false} SoldFormIsClosedForm(orders: seq<Order>, t: string, tape: seq<Lot>)
    requires NonNegative(orders) && NoOversell(orders, t)
    ensures SoldForm(orders, t, tape) == ClosedForm(orders, t, tape)
  {
    if orders != [] {
      var init := orders[..|orders| - 1];
      assert forall k | 0 <= k <= |init| :: init[..k] == orders[..k];
      SoldFormIsClosedForm(init, t, tape);
      MatchedIsSold(init, t);
      MatchedIsSold(orders, t);
    }
  }

  /** Without oversell, realised profit = sum of overlap([B(i-1), B(i)], [S(j-1), S(j)]) * (sell price - buy price). */
  lemma RealizedIsOverlapSum(orders: seq<Order>, t: string)
    requires NonNegative(orders) && NoOversell(orders, t)
    ensures BookOf(orders, t).realized == SoldForm(orders, t, Tape(orders, t))
  {
    RealizedIsClosedForm(orders, t);
    SoldFormIsClosedForm(orders, t, Tape(orders, t));
  }

  // ---- conservation: FIFO profit against cash flow ----

  /** Money taken for shares that closed no lot. */
  function Unmatched(orders: seq<Order>, t: string): real {
    if orders == [] then 0.0
    else
      var init, o := orders[..|orders| - 1], orders[|orders| - 1];
      Unmatched(init, t)
      + if SellOf(o, t) then Times(Num(o.qty) - (Matched(orders, t) - Matched(init, t)), Num(o.px)) else 0.0
  }

  lemma {:induction false} CloseConserves(lots: seq<Lot>, r: real, px: real)
    ensures var c := Close(lots, r, px);
            c.1 == Times(Qty(lots) - Qty(c.0), px) - (Cost(lots) - Cost(c.0))
    decreases |lots|, if r > 0.0 then 1 else 0
  {
    hide Times;
    if r <= 0.0 || lots == [] {
      TimesZero(px);
    } else {
      var m, q := Min(lots[0].qty, r), lots[0].qty;
      var rest := if m >= q then lots[1..] else [Lot(q - m, lots[0].px)] + lots[1..];
      CloseConserves(rest, r - m, px);
      var c := Close(rest, r - m, px);
      TimesSub(px, lots[0].px, m);
      TimesSub(Qty(lots) - Qty(c.0), Qty(rest) - Qty(c.0), px);
      if m < q {
        assert rest[1..] == lots[1..];
        TimesSub(q, m, lots[0].px);
      }
      assert Qty(lots) - Qty(c.0) - (Qty(rest) - Qty(c.0)) == m;
    }
  }

  lemma {:induction false} DropQtyShape(tape: seq<Lot>, x: real)
    requires Positive(tape) && 0.0 <= x <= Qty(tape)
    ensures Qty(DropQty(tape, x)) == Qty(tape) - x
    ensures Positive(DropQty(tape, x))
  {
    if tape != [] && x > 0.0 {
      QtyNonNegative(tape[1..]);
      if x >= tape[0].qty {
        DropQtyShape(tape[1..], x - tape[0].qty);
      } else {
        assert DropQty(tape, x)[1..] == tape[1..];
      }
    }
  }

  /** For every history: realised profit = sells - buys + cost of what is still held, less the oversold proceeds. */
  lemma {:induction false} RealizedConserves(orders: seq<Order>, t: string)
    requires NonNegative(orders)
    ensures var b := BookOf(orders, t);
            && b.realized == b.sells - b.buys + Cost(b.lots) - Unmatched(orders, t)
            && Qty(b.lots) == Qty(Tape(orders, t)) - Matched(orders, t)
            && Positive(b.lots)
  {
    hide Times;
    TapeBounds(orders, t);
    RealizedIsClosedForm(orders, t);
    DropQtyShape(Tape(orders, t), Matched(orders, t));
    if orders != [] {
      var init, o := orders[..|orders| - 1], orders[|orders| - 1];
      RealizedConserves(init, t);
      if Live(o) && Upper(o.ticker) == t {
        var b := BookOf(init, t);
        if o.side == "buy" {
          TapeAppend(b.lots, Lot(Num(o.qty), Num(o.px)));
        } else {
          CloseConserves(b.lots, Num(o.qty), Num(o.px));
          var m := Matched(orders, t) - Matched(init, t);
          TimesSub(Num(o.qty), m, Num(o.px));
          assert Qty(b.lots) - Qty(BookOf(orders, t).lots) == m;
        }
      }
    }
  }

  lemma {:induction false} UnmatchedSign(orders: seq<Order>, t: string)
    requires NonNegative(orders)
    requires forall o | o in orders :: Num(o.px) >= 0.0
    ensures Unmatched(orders, t) >= 0.0
    ensures Unmatched(orders, t) == 0.0 <==> Matched(orders, t) == Sold(orders, t)
  {
    hide Times;
    TapeBounds(orders, t);
    if orders != [] {
      var init, o := orders[..|orders| - 1], orders[|orders| - 1];
      TapeBounds(init, t);
      UnmatchedSign(init, t);
      if SellOf(o, t) {
        TimesSign(Num(o.qty) - (Matched(orders, t) - Matched(init, t)), Num(o.px));
      }
    }
  }

  /** Mark-to-market profit of the open lots, as the per-ticker report computes it. */
  function OpenPnl(lots: seq<Lot>, last: real): real {
    var q := Qty(lots);
    if q != 0.0 then (last - Cost(lots) / q) * q else 0.0
  }

  lemma OpenPnlIsMark(lots: seq<Lot>, last: real)
    requires Positive(lots)
    ensures OpenPnl(lots, last) == Times(Qty(lots), last) - Cost(lots)
  {
    if lots == [] {
    } else {
      QtyNonNegative(lots[1..]);
      MarkTerms(last, Cost(lots), Qty(lots));
    }
  }

  lemma MarkTerms(last: real, c: real, q: real)
    requires q != 0.0
    ensures (last - c / q) * q == Times(q, last) - c
  {
    var a := c / q;
    assert a * q == c;
    assert (last - a) * q == last * q - a * q;
  }

  /** FIFO profit (realised and open) equals the cash-flow profit exactly when no sell oversells. */
  lemma FifoIsCashFlow(orders: seq<Order>, t: string, last: real)
    requires NonNegative(orders)
    requires forall o | o in orders :: Num(o.px) >= 0.0
    ensures var b := BookOf(orders, t);
            b.realized + OpenPnl(b.lots, last) == b.sells - b.buys + Times(Qty(b.lots), last)
            <==> NoOversell(orders, t)
  {
    hide Times, OpenPnl;
    RealizedConserves(orders, t);
    OpenPnlIsMark(BookOf(orders, t).lots, last);
    UnmatchedSign(orders, t);
    MatchedIsSold(orders, t);
  }

  /** Concrete oversell: selling two shares out of a one-share position breaks the agreement. */
  lemma OversellExample()
    ensures var os := [Order("A", "buy", Some(1.0), Some(5.0)), Order("A", "sell", Some(2.0), Some(5.0))];
            var b := BookOf(os, "A");
            b.realized + OpenPnl(b.lots, 5.0) != b.sells - b.buys + Times(Qty(b.lots), 5.0)
  {
    var o0, o1 := Order("A", "buy", Some(1.0), Some(5.0)), Order("A", "sell", Some(2.0), Some(5.0));
    assert Upper("A") == "A";
    assert [o0, o1][..1] == [o0];
    assert [o0][..0] == [];
    assert BookOf([], "A").lots + [Lot(1.0, 5.0)] == [Lot(1.0, 5.0)];
    assert BookOf([o0], "A") == Book([Lot(1.0, 5.0)], 5.0, 0.0, 0.0);
    assert [Lot(1.0, 5.0)][1..] == [];
    assert Close([Lot(1.0, 5.0)], 2.0, 5.0) == ([], 0.0);
  }
}
