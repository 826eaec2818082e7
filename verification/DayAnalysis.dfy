/** The second FIFO engine (scripts/day2_deep_analysis.py) and the cash-flow report (scripts/day_pnl_report.py). */
module DayAnalysis {
  import opened Basics
  import opened Text
  import opened Fifo

  /** A lot this small is treated as closed. */
  const DUST := 0.000000001

  /** Sell `remaining` shares, oldest lot first: the lots left, the profit, the number of lots touched. */
  function Close2(lots: seq<Lot>, remaining: real, px: real): (r: (seq<Lot>, real, nat))
    decreases |lots|, if remaining > 0.0 then 1 else 0
  {
    if remaining <= 0.0 || lots == [] then (lots, 0.0, 0)
    else
      var close := Min(remaining, lots[0].qty);
      var left := lots[0].qty - close;
      var rest := if left > DUST then [Lot(left, lots[0].px)] + lots[1..] else lots[1..];
      var r := Close2(rest, remaining - close, px);
      (r.0, Times(close, px - lots[0].px) + r.1, 1 + r.2)
  }

  datatype Book2 = Book2(lots: seq<Lot>, buys: real, sells: real, realized: real, trips: nat, last: Option<real>)

  function Post2(b: Book2, o: Order, t: string): Book2 {
    if o.px.None? || o.qty.None? || o.ticker != t then b
    else
      var qty, px, b := o.qty.value, o.px.value, b.(last := o.px);
      if o.side == "buy" then b.(lots := b.lots + [Lot(qty, px)], buys := b.buys + Times(qty, px))
      else
        var r := Close2(b.lots, qty, px);
        b.(lots := r.0, sells := b.sells + Times(qty, px), realized := b.realized + r.1, trips := b.trips + r.2)
  }

  function Book2Of(orders: seq<Order>, t: string): Book2 {
    if orders == [] then Book2([], 0.0, 0.0, 0.0, 0, None)
    else Post2(Book2Of(orders[..|orders| - 1], t), orders[|orders| - 1], t)
  }

  datatype Row = Row(realized: real, openPnl: real, total: real, buys: real, sells: real, trips: nat, last: real)

  function RowOf(b: Book2): Row {
    var open := if Qty(b.lots) != 0.0 && b.last.Some? then OpenPnl(b.lots, b.last.value) else 0.0;
    Row(b.realized, open, b.realized + open, b.buys, b.sells, b.trips, Num(b.last))
  }

  /** Orders that make their ticker appear in the report. */
  predicate Shown(o: Order) {
    o.px.Some? && o.qty.Some? && (o.side == "buy" || o.qty.value > 0.0)
  }

  method CloseLots2(lots: map<string, seq<Lot>>, t: string, qty: real, px: real)
    returns (lots': map<string, seq<Lot>>, gain: real, trips: nat)
    ensures (LotsOf(lots', t), gain, trips) == Close2(LotsOf(lots, t), qty, px)
    ensures forall u | u != t :: LotsOf(lots', u) == LotsOf(lots, u)
    ensures lots'.Keys == if qty > 0.0 then lots.Keys + {t} else lots.Keys
  {
    hide Times;
    if qty <= 0.0 {
      return lots, 0.0, 0;
    }
    // Reading a missing key of the default dictionary creates it.
    var queue := LotsOf(lots, t);
    gain, trips := 0.0, 0;
    var remaining := qty;
    ghost var whole := Close2(queue, qty, px);
    while remaining > 0.0 && queue != []
      invariant Close2(queue, remaining, px).0 == whole.0
      invariant gain + Close2(queue, remaining, px).1 == whole.1
      invariant trips + Close2(queue, remaining, px).2 == whole.2
      decreases |queue|, if remaining > 0.0 then 1 else 0
    {
      var head := queue[0];
      var close := Min(remaining, head.qty);
      gain := gain + Times(close, px - head.px);
      remaining := remaining - close;
      var left := head.qty - close;
      queue := if left > DUST then [Lot(left, head.px)] + queue[1..] else queue[1..];
      trips := trips + 1;
    }
    lots' := lots[t := queue];
  }

  /** The dictionaries of the scan; a missing key stands for its default value. */
  datatype Tables = Tables(lots: map<string, seq<Lot>>, buys: map<string, real>, sells: map<string, real>,
                           realized: map<string, real>, trips: map<string, nat>, last: map<string, Option<real>>)
  {
    function Entry(t: string): Book2 {
      Book2(LotsOf(lots, t), Get(buys, t, 0.0), Get(sells, t, 0.0), Get(realized, t, 0.0), Get(trips, t, 0),
            Get(last, t, None))
    }
  }

  /** One fill of the scan. */
  method PostFill(tb: Tables, o: Order) returns (tb': Tables)
    ensures forall t :: tb'.Entry(t) == Post2(tb.Entry(t), o, t)
    ensures tb'.lots.Keys == if Shown(o) then tb.lots.Keys + {o.ticker} else tb.lots.Keys
  {
    hide Times, Close2;
    if o.px.None? || o.qty.None? {
      return tb;
    }
    if o.side == "buy" {
      tb' := PostBuy(tb, o);
    } else {
      tb' := PostSell(tb, o);
    }
  }

  method PostBuy(tb: Tables, o: Order) returns (tb': Tables)
    requires o.qty.Some? && o.px.Some? && o.side == "buy"
    ensures forall t :: tb'.Entry(t) == Post2(tb.Entry(t), o, t)
    ensures tb'.lots.Keys == tb.lots.Keys + {o.ticker}
  {
    hide Times, Close2;
    var t, qty, px := o.ticker, o.qty.value, o.px.value;
    var last := tb.last[t := o.px];
    var lots := tb.lots[t := LotsOf(tb.lots, t) + [Lot(qty, px)]];
    var buys := tb.buys[t := Get(tb.buys, t, 0.0) + Times(qty, px)];
    tb' := Tables(lots, buys, tb.sells, tb.realized, tb.trips, last);
    assert tb'.Entry(t) == Post2(tb.Entry(t), o, t);
    assert forall u | u != t :: tb'.Entry(u) == tb.Entry(u);
  }

  method PostSell(tb: Tables, o: Order) returns (tb': Tables)
    requires o.qty.Some? && o.px.Some? && o.side != "buy"
    ensures forall t :: tb'.Entry(t) == Post2(tb.Entry(t), o, t)
    ensures tb'.lots.Keys == if o.qty.value > 0.0 then tb.lots.Keys + {o.ticker} else tb.lots.Keys
  {
    hide Times, Close2;
    var t, qty, px := o.ticker, o.qty.value, o.px.value;
    var last := tb.last[t := o.px];
    var sells := tb.sells[t := Get(tb.sells, t, 0.0) + Times(qty, px)];
    var lots, gain, n := CloseLots2(tb.lots, t, qty, px);
    var realized := tb.realized[t := Get(tb.realized, t, 0.0) + gain];
    var trips := tb.trips[t := Get(tb.trips, t, 0) + n];
    tb' := Tables(lots, tb.buys, sells, realized, trips, last);
    assert tb'.Entry(t) == Post2(tb.Entry(t), o, t);
    assert forall u | u != t :: tb'.Entry(u) == tb.Entry(u);
  }

  /** The per-ticker table: the dictionaries filled in one pass over the fills, then one row per ticker seen. */
  method FifoPnlPerTicker(rows: seq<Order>) returns (out: map<string, Row>)
    ensures out.Keys == set o | o in rows && o.px.Some? && o.qty.Some? && (o.side == "buy" || o.qty.value > 0.0)
                          :: o.ticker
    ensures forall t | t in out :: out[t] == RowOf(Book2Of(rows, t))
  {
    hide Post2;
    var tb := Tables(map[], map[], map[], map[], map[], map[]);
    for i := 0 to |rows|
      invariant tb.lots.Keys == set o | o in rows[..i] && Shown(o) :: o.ticker
      invariant forall t :: tb.Entry(t) == Book2Of(rows[..i], t)
    {
      assert rows[..i + 1] == rows[..i] + [rows[i]];
      assert (rows[..i] + [rows[i]])[..i] == rows[..i];
      tb := PostFill(tb, rows[i]);
    }
    assert rows[..|rows|] == rows;
    out := map t | t in tb.lots :: RowOf(tb.Entry(t));
  }

  // ---- when the two engines agree ----

  /** Real fills: a positive quantity and price, and an upper-case ticker. */
  ghost predicate Fills(orders: seq<Order>) {
    forall o | o in orders ::
      o.qty.Some? && o.px.Some? && o.qty.value > 0.0 && o.px.value > 0.0 && Upper(o.ticker) == o.ticker
  }

  /** No lot is left with a positive quantity of at most the dust threshold. */
  predicate CleanClose(lots: seq<Lot>, remaining: real)
    decreases |lots|, if remaining > 0.0 then 1 else 0
  {
    remaining <= 0.0 || lots == [] ||
    var m := Min(lots[0].qty, remaining);
    if m >= lots[0].qty then CleanClose(lots[1..], remaining - m) else lots[0].qty - m > DUST
  }

  predicate DustFree(orders: seq<Order>, t: string) {
    orders == [] ||
    var init, o := orders[..|orders| - 1], orders[|orders| - 1];
    DustFree(init, t) && (SellOf(o, t) ==> CleanClose(BookOf(init, t).lots, Num(o.qty)))
  }

  lemma {:induction false} CleanAgrees(lots: seq<Lot>, r: real, px: real)
    requires Positive(lots)
    ensures CleanClose(lots, r) ==> (Close2(lots, r, px).0, Close2(lots, r, px).1) == Close(lots, r, px)
    ensures !CleanClose(lots, r) ==> |Close2(lots, r, px).0| + 1 == |Close(lots, r, px).0|
    ensures Positive(Close(lots, r, px).0)
    decreases |lots|
  {
    hide Times;
    if r > 0.0 && lots != [] {
      var m, q := Min(lots[0].qty, r), lots[0].qty;
      if m >= q {
        CleanAgrees(lots[1..], r - m, px);
      } else {
        var rest := [Lot(q - m, lots[0].px)] + lots[1..];
        assert Close(rest, r - m, px) == (rest, 0.0);
        assert Close2(rest, r - m, px) == (rest, 0.0, 0);
        assert Close2(lots[1..], r - m, px) == (lots[1..], 0.0, 0);
      }
    }
  }

  ghost predicate SameBook(b: Book, c: Book2) {
    b.lots == c.lots && b.realized == c.realized && b.buys == c.buys && b.sells == c.sells
  }

  /** One fill keeps the two books together unless it leaves dust, and then the lot lists part. */
  lemma StepAgrees(b: Book, c: Book2, o: Order, t: string)
    requires SameBook(b, c) && Positive(b.lots) && Fills([o])
    ensures var clean := SellOf(o, t) ==> CleanClose(b.lots, Num(o.qty));
            && (clean ==> SameBook(Post(b, o, t), Post2(c, o, t)))
            && (!clean ==> Post(b, o, t).lots != Post2(c, o, t).lots)
    ensures Positive(Post(b, o, t).lots)
  {
    assert o in [o];
    CleanAgrees(b.lots, Num(o.qty), Num(o.px));
    hide Times, Close, Close2, CleanClose;
  }

  /** The engines agree on everything they both report when no sell leaves dust. */
  lemma {:induction false} EnginesAgree(orders: seq<Order>, t: string)
    requires Fills(orders) && DustFree(orders, t)
    ensures SameBook(BookOf(orders, t), Book2Of(orders, t)) && Positive(BookOf(orders, t).lots)
  {
    if orders != [] {
      var n := |orders| - 1;
      EnginesAgree(orders[..n], t);
      StepAgrees(BookOf(orders[..n], t), Book2Of(orders[..n], t), orders[n], t);
      hide Post, Post2, CleanClose;
    }
  }

  ghost predicate SameLots(orders: seq<Order>, t: string) {
    Book2Of(orders, t).lots == BookOf(orders, t).lots
  }

  lemma {:induction false} SameLotsStep(orders: seq<Order>, t: string)
    requires Fills(orders) && orders != [] && DustFree(orders[..|orders| - 1], t)
    ensures DustFree(orders, t) <==> SameLots(orders, t)
  {
    var n := |orders| - 1;
    EnginesAgree(orders[..n], t);
    StepAgrees(BookOf(orders[..n], t), Book2Of(orders[..n], t), orders[n], t);
    hide Post, Post2, CleanClose;
  }

  /** They hold the same lots after every prefix of the fills exactly when no sell leaves dust. */
  lemma {:induction false} SameLotsIffDustFree(orders: seq<Order>, t: string)
    requires Fills(orders)
    ensures DustFree(orders, t) <==> forall k | 0 <= k <= |orders| :: SameLots(orders[..k], t)
  {
    if orders == [] {
      assert forall k | 0 <= k <= |orders| :: orders[..k] == [];
    } else {
      var n := |orders| - 1;
      var init := orders[..n];
      SameLotsIffDustFree(init, t);
      if DustFree(init, t) { SameLotsStep(orders, t); }
      hide SameLots, SellOf, CleanClose;
      assert forall k | 0 <= k <= n :: init[..k] == orders[..k];
      assert orders[..n + 1] == orders;
    }
  }

  // ---- dust in cumulative quantities ----

  /** Share `x` of the tape lies strictly inside lot `i`, at most a dust's worth before its end. */
  predicate NearEndOf(tape: seq<Lot>, x: real, i: nat)
    requires i < |tape|
  {
    Qty(tape[..i]) < x < Qty(tape[..i + 1]) <= x + DUST
  }

  predicate SplitsDust(tape: seq<Lot>, x: real) {
    tape != [] && ((0.0 < x < tape[0].qty && tape[0].qty - x <= DUST) || SplitsDust(tape[1..], x - tape[0].qty))
  }

  lemma QtyCons(tape: seq<Lot>, i: nat)
    requires tape != [] && i < |tape|
    ensures Qty(tape[..i + 1]) == tape[0].qty + Qty(tape[1..][..i])
  {
    assert tape[..i + 1][1..] == tape[1..][..i];
  }

  lemma {:induction false} SplitsMeaning(tape: seq<Lot>, x: real)
    ensures SplitsDust(tape, x) <==> exists i: nat :: i < |tape| && NearEndOf(tape, x, i)
  {
    if tape != [] {
      var rest, y := tape[1..], x - tape[0].qty;
      SplitsMeaning(rest, y);
      QtyCons(tape, 0);
      assert tape[..0] == [] && rest[..0] == [];
      forall i: nat | i < |rest| ensures NearEndOf(tape, x, i + 1) <==> NearEndOf(rest, y, i) {
        QtyCons(tape, i);
        QtyCons(tape, i + 1);
      }
      hide Qty;
      if i: nat :| i < |tape| && NearEndOf(tape, x, i) {
        if i > 0 { assert NearEndOf(rest, y, i - 1); }
      }
      if SplitsDust(tape, x) {
        if SplitsDust(rest, y) {
          var i: nat :| i < |rest| && NearEndOf(rest, y, i);
          assert NearEndOf(tape, x, i + 1);
        } else {
          assert NearEndOf(tape, x, 0);
        }
      }
    }
  }

  lemma {:induction false} NoSplitAtStart(tape: seq<Lot>, x: real)
    requires Positive(tape) && x <= 0.0
    ensures !SplitsDust(tape, x)
  {
    if tape != [] { NoSplitAtStart(tape[1..], x - tape[0].qty); }
  }

  /** A sell of `r` shares from `x` on is clean exactly when it does not end near the end of a lot. */
  lemma {:induction false} CleanIsNoSplit(tape: seq<Lot>, x: real, r: real)
    requires Positive(tape) && 0.0 <= x <= Qty(tape) && r > 0.0
    ensures CleanClose(DropQty(tape, x), r) <==> !SplitsDust(tape, Min(x + r, Qty(tape)))
  {
    if tape != [] {
      var q, rest, y := tape[0].qty, tape[1..], Min(x + r, Qty(tape));
      QtyNonNegative(rest);
      if x >= q {
        CleanIsNoSplit(rest, x - q, r);
      } else {
        var lots := DropQty(tape, x);
        assert lots[0] == Lot(q - x, tape[0].px) && lots[1..] == rest;
        NoSplitAtStart(rest, Min(y - q, 0.0));
        if r > q - x { CleanIsNoSplit(rest, 0.0, r - (q - x)); }
      }
    }
  }

  predicate EndsClean(tape: seq<Lot>, x: real) {
    forall i: nat | i < |tape| :: !NearEndOf(tape, x, i)
  }

  /** No sell ends strictly inside a lot, within a dust's worth of its end. */
  predicate NoSplits(orders: seq<Order>, t: string) {
    forall k | 0 <= k < |orders| && SellOf(orders[k], t) ::
      EndsClean(Tape(orders[..k], t), Matched(orders[..k + 1], t))
  }

  lemma SellSplits(orders: seq<Order>, t: string)
    requires Fills(orders) && orders != [] && SellOf(orders[|orders| - 1], t)
    ensures var n := |orders| - 1;
            CleanClose(BookOf(orders[..n], t).lots, Num(orders[n].qty))
            <==> EndsClean(Tape(orders[..n], t), Matched(orders, t))
  {
    var n := |orders| - 1;
    var init := orders[..n];
    RealizedIsClosedForm(init, t);
    TapeBounds(init, t);
    CleanIsNoSplit(Tape(init, t), Matched(init, t), Num(orders[n].qty));
    SplitsMeaning(Tape(init, t), Matched(orders, t));
    hide CleanClose, SplitsDust, NearEndOf, Tape, DropQty, BookOf, ClosedForm, Qty;
  }

  /**
   * Read off the buys and sells alone: no dust is ever left exactly when no sell j and buy i have the matched quantity
   * M(j) strictly inside (B(i-1), B(i)) with B(i) - M(j) <= 1e-9.
   */
  lemma {:induction false} DustFreeInQuantities(orders: seq<Order>, t: string)
    requires Fills(orders)
    ensures DustFree(orders, t) <==> NoSplits(orders, t)
  {
    if orders != [] {
      var n := |orders| - 1;
      var init := orders[..n];
      DustFreeInQuantities(init, t);
      if SellOf(orders[n], t) { SellSplits(orders, t); }
      NoSplitsPrefix(orders, t);
      hide CleanClose, EndsClean, NoSplits, Tape, Matched, SellOf, BookOf;
    }
  }

  lemma NoSplitsPrefix(orders: seq<Order>, t: string)
    requires orders != []
    ensures var n := |orders| - 1;
            var last := SellOf(orders[n], t) ==> EndsClean(Tape(orders[..n], t), Matched(orders, t));
            NoSplits(orders, t) <==> NoSplits(orders[..n], t) && last
  {
    hide EndsClean, Tape, Matched, SellOf;
    var n := |orders| - 1;
    var init := orders[..n];
    assert orders[..n + 1] == orders;
    assert forall k | 0 <= k <= n :: init[..k] == orders[..k];
    if NoSplits(orders, t) {
      forall k | 0 <= k < n && SellOf(init[k], t) ensures EndsClean(Tape(init[..k], t), Matched(init[..k + 1], t)) {
        assert init[k] == orders[k];
      }
    }
  }

  function Scale(k: int, q: real): real {
    k as real * q
  }

  ghost predicate Multiple(x: real, q: real) {
    exists k: int :: x == Scale(k, q)
  }

  lemma MultipleSub(x: real, y: real, q: real)
    requires Multiple(x, q) && Multiple(y, q)
    ensures Multiple(x - y, q)
  {
    var k: int :| x == Scale(k, q);
    var l: int :| y == Scale(l, q);
    assert x - y == Scale(k - l, q);
  }

  lemma PositiveMultiple(x: real, q: real)
    requires Multiple(x, q) && x > 0.0 && q > 0.0
    ensures x >= q
  {
    var k: int :| x == Scale(k, q);
    var j := k as real - 1.0;
    assert x == j * q + q;
    if k <= 0 {
      ProductNonNegative(-(k as real), q);
      assert false;
    }
    ProductNonNegative(j, q);
  }

  lemma ProductNonNegative(a: real, b: real)
    requires a >= 0.0 && b >= 0.0
    ensures a * b >= 0.0
  {
  }

  lemma {:induction false} QuantumClean(lots: seq<Lot>, r: real, px: real, q: real)
    requires q > DUST && Multiple(r, q)
    requires forall l | l in lots :: l.qty > 0.0 && Multiple(l.qty, q)
    ensures CleanClose(lots, r)
    ensures forall l | l in Close(lots, r, px).0 :: l.qty > 0.0 && Multiple(l.qty, q)
    decreases |lots|
  {
    hide Times, Multiple, Scale;
    if r > 0.0 && lots != [] {
      var l := lots[0];
      if l.qty <= r {
        MultipleSub(r, l.qty, q);
        QuantumClean(lots[1..], r - l.qty, px, q);
      } else {
        MultipleSub(l.qty, r, q);
        PositiveMultiple(l.qty - r, q);
        var rest := [Lot(l.qty - r, l.px)] + lots[1..];
        assert Close(rest, 0.0, px) == (rest, 0.0);
      }
    }
  }

  /** Fills that are multiples of one quantum above the threshold never leave dust. */
  lemma {:induction false} QuantumIsDustFree(orders: seq<Order>, t: string, q: real)
    requires Fills(orders) && q > DUST
    requires forall o | o in orders :: Multiple(Num(o.qty), q)
    ensures DustFree(orders, t)
    ensures forall l | l in BookOf(orders, t).lots :: l.qty > 0.0 && Multiple(l.qty, q)
  {
    hide Times, Multiple, Close;
    if orders != [] {
      var init, o := orders[..|orders| - 1], orders[|orders| - 1];
      QuantumIsDustFree(init, t, q);
      QuantumClean(BookOf(init, t).lots, Num(o.qty), Num(o.px), q);
    }
  }

  const HALF_DUST := 0.0000000005

  /** One share bought; a sell that leaves half a unit of dust; a sell of that dust. */
  const DUSTY := [Order("A", "buy", Some(1.0), Some(1.0)), Order("A", "sell", Some(1.0 - HALF_DUST), Some(2.0)),
                  Order("A", "sell", Some(HALF_DUST), Some(2.0))]

  lemma DustCloses()
    ensures var lots, dust := [Lot(1.0, 1.0)], [Lot(HALF_DUST, 1.0)];
            && Close(lots, 1.0 - HALF_DUST, 2.0) == (dust, 1.0 - HALF_DUST)
            && Close(dust, HALF_DUST, 2.0) == ([], HALF_DUST)
            && Close2(lots, 1.0 - HALF_DUST, 2.0) == ([], 1.0 - HALF_DUST, 1)
            && Close2([], HALF_DUST, 2.0) == ([], 0.0, 0)
  {
    var lots, dust := [Lot(1.0, 1.0)], [Lot(HALF_DUST, 1.0)];
    assert lots[1..] == [] && dust + lots[1..] == dust && dust[1..] == [];
    assert Close(dust, 0.0, 2.0) == (dust, 0.0);
    assert Close([], 0.0, 2.0) == ([], 0.0);
    assert Close2([], 0.0, 2.0) == ([], 0.0, 0);
  }

  lemma PostLast(orders: seq<Order>, o: Order)
    ensures BookOf(orders + [o], "A") == Post(BookOf(orders, "A"), o, "A")
    ensures Book2Of(orders + [o], "A") == Post2(Book2Of(orders, "A"), o, "A")
  {
    assert (orders + [o])[..|orders|] == orders;
  }

  lemma DustFirst()
    ensures BookOf(DUSTY[..2], "A").lots == [Lot(HALF_DUST, 1.0)] && BookOf(DUSTY[..2], "A").realized == 1.0 - HALF_DUST
    ensures Book2Of(DUSTY[..2], "A").lots == [] && Book2Of(DUSTY[..2], "A").realized == 1.0 - HALF_DUST
  {
    DustCloses();
    hide Close, Close2, Times;
    assert Upper("A") == "A";
    assert BookOf([], "A") == Book([], 0.0, 0.0, 0.0) && Book2Of([], "A") == Book2([], 0.0, 0.0, 0.0, 0, None);
    PostLast([], DUSTY[0]);
    PostLast([DUSTY[0]], DUSTY[1]);
    hide BookOf, Book2Of, Upper;
    assert [] + [DUSTY[0]] == [DUSTY[0]] && [DUSTY[0]] + [DUSTY[1]] == DUSTY[..2];
    assert [] + [Lot(1.0, 1.0)] == [Lot(1.0, 1.0)];
  }

  /** On that history the second sell closes the dust in the first engine and finds nothing in the second. */
  lemma DustExample()
    ensures BookOf(DUSTY, "A").realized == 1.0 && Book2Of(DUSTY, "A").realized == 1.0 - HALF_DUST
  {
    DustFirst();
    DustCloses();
    hide Close, Close2, Times;
    assert Upper("A") == "A";
    PostLast(DUSTY[..2], DUSTY[2]);
    hide BookOf, Book2Of, Upper;
    assert DUSTY[..2] + [DUSTY[2]] == DUSTY;
  }

  // ---- trip counts ----

  /** How many lots of the tape share stock with the interval from `lo` to `hi`. */
  function Touched(tape: seq<Lot>, off: real, lo: real, hi: real): nat {
    if tape == [] then 0
    else
      (if Overlap(off, off + tape[0].qty, lo, hi) > 0.0 then 1 else 0)
      + Touched(tape[1..], off + tape[0].qty, lo, hi)
  }

  lemma {:induction false} TouchedShift(tape: seq<Lot>, off: real, lo: real, hi: real, d: real)
    ensures Touched(tape, off, lo, hi) == Touched(tape, off - d, lo - d, hi - d)
  {
    if tape != [] {
      TouchedShift(tape[1..], off + tape[0].qty, lo, hi, d);
      assert off + tape[0].qty - d == off - d + tape[0].qty;
    }
  }

  lemma {:induction false} TouchedClip(tape: seq<Lot>, off: real, lo: real, hi: real)
    requires Positive(tape) && off >= 0.0 >= lo
    ensures Touched(tape, off, lo, hi) == Touched(tape, off, 0.0, hi)
    ensures hi <= off ==> Touched(tape, off, lo, hi) == 0
  {
    if tape != [] { TouchedClip(tape[1..], off + tape[0].qty, lo, hi); }
  }

  lemma {:induction false} NoneTouched(tape: seq<Lot>, off: real, x: real)
    ensures Touched(tape, off, x, x) == 0
  {
    if tape != [] { NoneTouched(tape[1..], off + tape[0].qty, x); }
  }

  lemma TouchedCons(tape: seq<Lot>, lo: real, hi: real)
    requires tape != []
    ensures var q := tape[0].qty;
            Touched(tape, 0.0, lo, hi)
            == (if Overlap(0.0, q, lo, hi) > 0.0 then 1 else 0) + Touched(tape[1..], 0.0, lo - q, hi - q)
  {
    hide Overlap;
    TouchedShift(tape[1..], tape[0].qty, lo, hi, tape[0].qty);
  }

  /** One sell counts one trip for every lot it shares stock with, when it leaves no dust. */
  lemma {:induction false} TripsOnTape(tape: seq<Lot>, x: real, r: real, px: real)
    requires Positive(tape) && 0.0 <= x <= Qty(tape) && r >= 0.0
    requires CleanClose(DropQty(tape, x), r)
    ensures Close2(DropQty(tape, x), r, px).2 == Touched(tape, 0.0, x, Min(x + r, Qty(tape)))
    decreases |tape|, 1
  {
    var y := Min(x + r, Qty(tape));
    if r == 0.0 {
      NoneTouched(tape, 0.0, x);
    } else if tape != [] {
      var q, rest := tape[0].qty, tape[1..];
      QtyNonNegative(rest);
      if x >= q {
        hide Times, Close2, CleanClose, Touched;
        TripsOnTape(rest, x - q, r, px);
        TouchedCons(tape, x, y);
      } else {
        TripsInHead(tape, x, r, px);
      }
    }
  }

  lemma {:induction false} TripsInHead(tape: seq<Lot>, x: real, r: real, px: real)
    requires tape != [] && Positive(tape) && 0.0 <= x < tape[0].qty && r > 0.0
    requires CleanClose(DropQty(tape, x), r)
    ensures Close2(DropQty(tape, x), r, px).2 == Touched(tape, 0.0, x, Min(x + r, Qty(tape)))
    decreases |tape|, 0
  {
    hide Times;
    var y := Min(x + r, Qty(tape));
    var q, rest := tape[0].qty, tape[1..];
    QtyNonNegative(rest);
    var lots := DropQty(tape, x);
    assert lots[0] == Lot(q - x, tape[0].px) && lots[1..] == rest;
    TouchedCons(tape, x, y);
    TouchedClip(rest, 0.0, x - q, y - q);
    hide Touched;
    if r >= q - x {
      TripsOnTape(rest, 0.0, r - (q - x), px);
    } else {
      var left := [Lot(q - x - r, tape[0].px)] + lots[1..];
      assert Close2(left, 0.0, px) == (left, 0.0, 0);
    }
  }

  /** Number of (buy, sell) pairs that share stock. */
  function PairsSharing(orders: seq<Order>, t: string, tape: seq<Lot>): nat {
    if orders == [] then 0
    else
      var init, o := orders[..|orders| - 1], orders[|orders| - 1];
      PairsSharing(init, t, tape)
      + if SellOf(o, t) then Touched(tape, 0.0, Matched(init, t), Matched(orders, t)) else 0
  }

  lemma {:induction false} TouchedAppend(tape: seq<Lot>, l: Lot, off: real, lo: real, hi: real)
    requires l.qty > 0.0 && hi <= off + Qty(tape)
    ensures Touched(tape + [l], off, lo, hi) == Touched(tape, off, lo, hi)
  {
    if tape != [] {
      assert (tape + [l])[1..] == tape[1..] + [l];
      TouchedAppend(tape[1..], l, off + tape[0].qty, lo, hi);
    }
  }

  lemma {:induction false} PairsAppend(orders: seq<Order>, t: string, tape: seq<Lot>, l: Lot)
    requires NonNegative(orders) && Positive(tape) && l.qty > 0.0 && Qty(Tape(orders, t)) <= Qty(tape)
    ensures PairsSharing(orders, t, tape + [l]) == PairsSharing(orders, t, tape)
  {
    if orders != [] {
      var init, o := orders[..|orders| - 1], orders[|orders| - 1];
      TapeBounds(orders, t);
      TapeBounds(init, t);
      TapeAppend(Tape(init, t), Lot(Num(o.qty), Num(o.px)));
      PairsAppend(init, t, tape, l);
      if SellOf(o, t) { TouchedAppend(tape, l, 0.0, Matched(init, t), Matched(orders, t)); }
    }
  }

  /** The trip counter is the number of buy/sell pairs whose share ranges overlap. */
  lemma {:induction false} TripsArePairs(orders: seq<Order>, t: string)
    requires Fills(orders) && DustFree(orders, t)
    ensures Book2Of(orders, t).trips == PairsSharing(orders, t, Tape(orders, t))
  {
    hide Times, Close, Close2, CleanClose;
    if orders != [] {
      var init, o := orders[..|orders| - 1], orders[|orders| - 1];
      var tape := Tape(init, t);
      TripsArePairs(init, t);
      EnginesAgree(init, t);
      RealizedIsClosedForm(init, t);
      TapeBounds(init, t);
      if o.ticker == t {
        if o.side == "buy" {
          PairsAppend(init, t, tape, Lot(Num(o.qty), Num(o.px)));
        } else {
          TripsOnTape(tape, Matched(init, t), Num(o.qty), Num(o.px));
        }
      }
    }
  }

  // ---- the cash-flow report ----

  datatype Position = Position(ticker: string, marketValue: Option<real>)

  datatype Contribution = Contribution(startMv: real, endMv: real, cashFlow: real, pnl: real)

  /** The last listed market value of `t`, keys being upper-cased. */
  function MarketValue(snap: seq<Position>, t: string): real {
    if snap == [] then 0.0
    else
      var p := snap[|snap| - 1];
      if Upper(p.ticker) == t then Num(p.marketValue) else MarketValue(snap[..|snap| - 1], t)
  }

  function CashFlow(orders: seq<Order>, t: string): real {
    if orders == [] then 0.0
    else
      var o := orders[|orders| - 1];
      CashFlow(orders[..|orders| - 1], t)
      + if Upper(o.ticker) != t then 0.0
        else if o.side == "buy" then -Times(Num(o.px), Num(o.qty)) else Times(Num(o.px), Num(o.qty))
  }

  method MarketValues(snap: seq<Position>) returns (mv: map<string, real>)
    ensures mv.Keys == set p | p in snap :: Upper(p.ticker)
    ensures forall t :: Get(mv, t, 0.0) == MarketValue(snap, t)
  {
    mv := map[];
    for i := 0 to |snap|
      invariant mv.Keys == set p | p in snap[..i] :: Upper(p.ticker)
      invariant forall t :: Get(mv, t, 0.0) == MarketValue(snap[..i], t)
    {
      assert snap[..i + 1] == snap[..i] + [snap[i]];
      assert (snap[..i] + [snap[i]])[..i] == snap[..i];
      mv := mv[Upper(snap[i].ticker) := Num(snap[i].marketValue)];
    }
    assert snap[..|snap|] == snap;
  }

  lemma CashFlowAppend(orders: seq<Order>, o: Order)
    ensures forall t :: CashFlow(orders + [o], t)
              == CashFlow(orders, t)
                 + if Upper(o.ticker) != t then 0.0
                   else if o.side == "buy" then -Times(Num(o.px), Num(o.qty)) else Times(Num(o.px), Num(o.qty))
  {
    hide Times;
    assert (orders + [o])[..|orders|] == orders;
  }

  method CashFlows(orders: seq<Order>) returns (cashFlow: map<string, real>)
    ensures cashFlow.Keys == set o | o in orders :: Upper(o.ticker)
    ensures forall t :: Get(cashFlow, t, 0.0) == CashFlow(orders, t)
  {
    cashFlow := map[];
    assert forall t :: CashFlow([], t) == 0.0;
    hide Times, Num, Upper, CashFlow;
    for i := 0 to |orders|
      invariant cashFlow.Keys == set o | o in orders[..i] :: Upper(o.ticker)
      invariant forall t :: Get(cashFlow, t, 0.0) == CashFlow(orders[..i], t)
    {
      var o := orders[i];
      assert orders[..i + 1] == orders[..i] + [o];
      CashFlowAppend(orders[..i], o);
      var tk := Upper(o.ticker);
      var amount := Times(Num(o.px), Num(o.qty));
      cashFlow := cashFlow[tk := Get(cashFlow, tk, 0.0) + if o.side == "buy" then -amount else amount];
    }
    assert orders[..|orders|] == orders;
  }

  function Contribute(m0: real, m1: real, cf: real): Contribution {
    Contribution(m0, m1, cf, (m1 - m0) + cf)
  }

  predicate Flat(c: Contribution) {
    c.startMv == 0.0 && c.endMv == 0.0 && c.cashFlow == 0.0
  }

  function Figures(firstMv: map<string, real>, lastMv: map<string, real>, cashFlow: map<string, real>, t: string)
    : Contribution
  {
    Contribute(Get(firstMv, t, 0.0), Get(lastMv, t, 0.0), Get(cashFlow, t, 0.0))
  }

  /** The report loop: one row for every listed ticker with a figure to show. */
  method Contributions(firstMv: map<string, real>, lastMv: map<string, real>, cashFlow: map<string, real>)
    returns (out: map<string, Contribution>)
    ensures forall t :: t in out <==> !Flat(Figures(firstMv, lastMv, cashFlow, t))
    ensures forall t | t in out :: out[t] == Figures(firstMv, lastMv, cashFlow, t)
  {
    var tickers := firstMv.Keys + lastMv.Keys + cashFlow.Keys;
    forall t | t !in tickers ensures Flat(Figures(firstMv, lastMv, cashFlow, t)) {
    }
    hide Figures;
    var todo := tickers;
    out := map[];
    while todo != {}
      invariant todo <= tickers
      invariant forall t | t in todo :: t !in out
      invariant forall t | t !in todo :: t in out <==> !Flat(Figures(firstMv, lastMv, cashFlow, t))
      invariant forall t | t in out :: out[t] == Figures(firstMv, lastMv, cashFlow, t)
      decreases todo
    {
      var tk :| tk in todo;
      todo := todo - {tk};
      var row := ReportRow(firstMv, lastMv, cashFlow, tk);
      if row.Some? {
        out := out[tk := row.value];
      }
    }
  }

  method ReportRow(firstMv: map<string, real>, lastMv: map<string, real>, cashFlow: map<string, real>, tk: string)
    returns (row: Option<Contribution>)
    ensures row == if Flat(Figures(firstMv, lastMv, cashFlow, tk)) then None
                   else Some(Figures(firstMv, lastMv, cashFlow, tk))
  {
    var m0, m1, cf := Get(firstMv, tk, 0.0), Get(lastMv, tk, 0.0), Get(cashFlow, tk, 0.0);
    var pnl := (m1 - m0) + cf;
    if -0.005 < pnl < 0.005 && m0 == 0.0 && m1 == 0.0 && cf == 0.0 {
      row := None;
    } else {
      row := Some(Contribution(m0, m1, cf, pnl));
    }
  }

  function ContributionOf(orders: seq<Order>, firstSnap: seq<Position>, lastSnap: seq<Position>, t: string)
    : Contribution
  {
    Contribute(MarketValue(firstSnap, t), MarketValue(lastSnap, t), CashFlow(orders, t))
  }

  lemma ContributeMeaning(m0: real, m1: real, cf: real)
    ensures var c := Contribute(m0, m1, cf);
            && c.startMv == m0 && c.endMv == m1 && c.cashFlow == cf && c.pnl == m1 - m0 + cf
            && (Flat(c) <==> m0 == 0.0 && m1 == 0.0 && cf == 0.0)
  {
  }

  /** A ticker is reported exactly when one of its three figures is non-zero. */
  method PerTickerPnl(orders: seq<Order>, firstSnap: seq<Position>, lastSnap: seq<Position>)
    returns (out: map<string, Contribution>)
    ensures forall t :: t in out <==>
              MarketValue(firstSnap, t) != 0.0 || MarketValue(lastSnap, t) != 0.0 || CashFlow(orders, t) != 0.0
    ensures forall t | t in out :: out[t] == ContributionOf(orders, firstSnap, lastSnap, t)
    ensures forall t | t in out ::
              && out[t].startMv == MarketValue(firstSnap, t) && out[t].endMv == MarketValue(lastSnap, t)
              && out[t].cashFlow == CashFlow(orders, t)
              && out[t].pnl == out[t].endMv - out[t].startMv + out[t].cashFlow
  {
    forall t {
      ContributeMeaning(MarketValue(firstSnap, t), MarketValue(lastSnap, t), CashFlow(orders, t));
    }
    hide MarketValue, CashFlow, Get, Flat, Contribute;
    var firstMv := MarketValues(firstSnap);
    var lastMv := MarketValues(lastSnap);
    var cashFlow := CashFlows(orders);
    out := Contributions(firstMv, lastMv, cashFlow);
  }

  lemma {:induction false} CashFlowIsBook(orders: seq<Order>, t: string)
    ensures CashFlow(orders, t) == BookOf(orders, t).sells - BookOf(orders, t).buys
  {
    hide Close;
    if orders != [] { CashFlowIsBook(orders[..|orders| - 1], t); }
  }

  lemma {:induction false} CashFlowJoin(a: seq<Order>, b: seq<Order>, t: string)
    ensures CashFlow(a + b, t) == CashFlow(a, t) + CashFlow(b, t)
  {
    hide Times;
    if b == [] {
      assert a + b == a;
    } else {
      assert (a + b)[..|a + b| - 1] == a + b[..|b| - 1];
      CashFlowJoin(a, b[..|b| - 1], t);
    }
  }

  /** Reports over consecutive periods add up to the report over both: contributions are conserved. */
  lemma PeriodsAddUp(first: seq<Order>, second: seq<Order>, open: seq<Position>, mid: seq<Position>,
                     close: seq<Position>, t: string)
    ensures ContributionOf(first, open, mid, t).pnl + ContributionOf(second, mid, close, t).pnl
            == ContributionOf(first + second, open, close, t).pnl
  {
    hide CashFlow, MarketValue;
    CashFlowJoin(first, second, t);
  }

  predicate LastListed(snap: seq<Position>, t: string, i: nat) {
    i < |snap| && Upper(snap[i].ticker) == t && forall j | i < j < |snap| :: Upper(snap[j].ticker) != t
  }

  /** The market value of a ticker is that of its last position in the snapshot, an absent value counting as zero. */
  lemma {:induction false} MarketValueMeaning(snap: seq<Position>, t: string, i: nat)
    requires LastListed(snap, t, i)
    ensures MarketValue(snap, t) == if snap[i].marketValue.Some? then snap[i].marketValue.value else 0.0
  {
    hide Upper;
    var n := |snap| - 1;
    if i < n { MarketValueMeaning(snap[..n], t, i); }
  }

  lemma {:induction false} NotListed(snap: seq<Position>, t: string)
    requires forall p | p in snap :: Upper(p.ticker) != t
    ensures MarketValue(snap, t) == 0.0
  {
    hide Upper;
    if snap != [] { NotListed(snap[..|snap| - 1], t); }
  }

  // ---- the last price ----

  /** An order of `t` that the engine does not skip. */
  predicate FillOf(o: Order, t: string) {
    o.ticker == t && o.qty.Some? && o.px.Some?
  }

  predicate LastFill(orders: seq<Order>, t: string, i: nat) {
    i < |orders| && FillOf(orders[i], t) && forall j | i < j < |orders| :: !FillOf(orders[j], t)
  }

  /** The last price seen is the price of the ticker's last order with both a quantity and a price; none without one. */
  lemma {:induction false} LastPriceMeaning(orders: seq<Order>, t: string)
    ensures forall i: nat | LastFill(orders, t, i) :: Book2Of(orders, t).last == orders[i].px
    ensures Book2Of(orders, t).last.None? <==> forall o | o in orders :: !FillOf(o, t)
  {
    hide Close2, Times;
    if orders != [] {
      var n := |orders| - 1;
      LastPriceMeaning(orders[..n], t);
      assert forall o | o in orders :: o in orders[..n] || o == orders[n];
      assert orders[n] in orders;
      forall i: nat | LastFill(orders, t, i) ensures Book2Of(orders, t).last == orders[i].px {
        if i < n { assert LastFill(orders[..n], t, i); }
      }
    }
  }

  lemma {:induction false} LastFillExists(orders: seq<Order>, t: string) returns (i: nat)
    requires exists o :: o in orders && FillOf(o, t)
    ensures LastFill(orders, t, i)
  {
    var n := |orders| - 1;
    if FillOf(orders[n], t) {
      i := n;
    } else {
      var o :| o in orders && FillOf(o, t);
      assert o in orders[..n];
      i := LastFillExists(orders[..n], t);
    }
  }

  lemma {:induction false} LastPrice(orders: seq<Order>, t: string)
    requires Fills(orders)
    ensures Book2Of(orders, t).last.None? ==> BookOf(orders, t) == Book([], 0.0, 0.0, 0.0)
    ensures Book2Of(orders, t).last.None? ==> forall o | o in orders :: o.ticker != t
  {
    hide Close, Close2, Times;
    if orders != [] {
      LastPrice(orders[..|orders| - 1], t);
      assert forall o | o in orders :: o in orders[..|orders| - 1] || o == orders[|orders| - 1];
    }
  }

  /**
   * The three computations agree: starting flat, a table row of the second engine totals what the first engine
   * realises plus its open profit, and that is the cash-flow contribution with the open shares at the last price.
   */
  lemma ThreeAgree(orders: seq<Order>, t: string)
    requires Fills(orders) && NoOversell(orders, t) && DustFree(orders, t)
    ensures var b, row := BookOf(orders, t), RowOf(Book2Of(orders, t));
            && row.realized == b.realized && row.buys == b.buys && row.sells == b.sells
            && row.trips == PairsSharing(orders, t, Tape(orders, t))
            && row.total == b.realized + OpenPnl(b.lots, row.last)
            && row.total == Contribute(0.0, Times(Qty(b.lots), row.last), CashFlow(orders, t)).pnl
    ensures forall i: nat | LastFill(orders, t, i) ::
              var px, row := Num(orders[i].px), RowOf(Book2Of(orders, t));
              row.last == px && row.total == Times(Qty(BookOf(orders, t).lots), px) + CashFlow(orders, t)
  {
    LastPriceMeaning(orders, t);
    TripsArePairs(orders, t);
    hide Times, Close, Close2, OpenPnl, PairsSharing, Tape;
    EnginesAgree(orders, t);
    CashFlowIsBook(orders, t);
    LastPrice(orders, t);
    FifoIsCashFlow(orders, t, RowOf(Book2Of(orders, t)).last);
    var b := BookOf(orders, t);
    OpenPnlIsMark(b.lots, RowOf(Book2Of(orders, t)).last);
    TimesZero(RowOf(Book2Of(orders, t)).last);
    if b.lots != [] { QtyNonNegative(b.lots[1..]); }
  }
}
