/**
 * Maximum drawdown: the running-maximum scan of `compute_metrics` (src/agentic_investor/eval/backtest.py) and the
 * order-blind peak/trough figure of the session report (src/agentic_investor/ops/report.py).
 */
module Drawdown {
  import opened Basics

  predicate Positive(v: seq<real>) {
    forall i | 0 <= i < |v| :: v[i] > 0.0
  }

  function Peak(v: seq<real>): real
    requires v != []
  {
    if |v| == 1 then v[0] else Max(Peak(v[..|v| - 1]), v[|v| - 1])
  }

  function Trough(v: seq<real>): real
    requires v != []
  {
    if |v| == 1 then v[0] else Min(Trough(v[..|v| - 1]), v[|v| - 1])
  }

  function Drop(x: real, peak: real): real
    requires peak != 0.0
  {
    (x - peak) / peak
  }

  lemma {:induction false} PeakReached(v: seq<real>) returns (i: nat)
    requires v != []
    ensures i < |v| && v[i] == Peak(v)
    ensures forall j | 0 <= j < |v| :: v[j] <= Peak(v)
  {
    var n := |v| - 1;
    if n == 0 {
      i := 0;
    } else {
      i := PeakReached(v[..n]);
      assert forall j | 0 <= j < n :: v[..n][j] == v[j];
      if v[n] > Peak(v[..n]) { i := n; }
    }
  }

  lemma {:induction false} TroughReached(v: seq<real>) returns (i: nat)
    requires v != []
    ensures i < |v| && v[i] == Trough(v)
    ensures forall j | 0 <= j < |v| :: v[j] >= Trough(v)
  {
    var n := |v| - 1;
    if n == 0 {
      i := 0;
    } else {
      i := TroughReached(v[..n]);
      assert forall j | 0 <= j < n :: v[..n][j] == v[j];
      if v[n] < Trough(v[..n]) { i := n; }
    }
  }

  /** Smallest of the drops of each value from the running maximum at that point. */
  function MinDrop(v: seq<real>): real
    requires v != [] && Positive(v)
  {
    var n := |v| - 1;
    assert Peak(v) > 0.0 by { var i := PeakReached(v); }
    var drop := Drop(v[n], Peak(v));
    if n == 0 then drop else Min(MinDrop(v[..n]), drop)
  }

  /** The metric, for positive values; fewer than two observations are an error. */
  function MaxDrawdown(v: seq<real>): Option<real>
    requires Positive(v)
  {
    if |v| < 2 then None else Some(MinDrop(v))
  }

  lemma DropRatio(x: real, p: real)
    requires x > 0.0 && p > 0.0
    ensures Times(Drop(x, p) + 1.0, p) == x && Drop(x, p) + 1.0 > 0.0
  {
    var d := Drop(x, p);
    assert d * p == x - p;
    assert (d + 1.0) * p == d * p + p;
    hide Drop;
    if d + 1.0 <= 0.0 { NoProduct(-(d + 1.0), p); }
  }

  lemma NoProduct(a: real, p: real)
    requires a >= 0.0 && p > 0.0
    ensures -a * p <= 0.0
  {
    assert a * p >= 0.0;
  }

  /** A lower value from a higher peak is a deeper drop. */
  lemma DropOrder(x: real, p: real, y: real, q: real)
    requires 0.0 < x <= y && 0.0 < q <= p
    ensures Drop(x, p) <= Drop(y, q)
    ensures Drop(x, p) == Drop(y, q) <==> x == y && p == q
  {
    DropRatio(x, p);
    DropRatio(y, q);
    RatioOrder(Drop(x, p) + 1.0, p, Drop(y, q) + 1.0, q);
    hide Drop, Times;
  }

  lemma RatioOrder(a: real, p: real, b: real, q: real)
    requires a > 0.0 && b > 0.0 && 0.0 < q <= p && Times(a, p) <= Times(b, q)
    ensures a <= b
    ensures a == b <==> Times(a, p) == Times(b, q) && p == q
  {
    TimesSub(p, q, b);
    TimesSign(p - q, b);
    TimesSub(a, b, p);
    if a > b { TimesSign(a - b, p); }
    if a < b { TimesSign(b - a, p); TimesSub(b, a, p); }
    hide Times;
  }

  /** On positive values the scan is the minimum over all i <= j of v[j] / v[i] - 1: it is attained, and a bound. */
  lemma {:induction false} ScanIsWorstPair(v: seq<real>) returns (i: nat, j: nat)
    requires Positive(v) && v != []
    ensures i <= j < |v| && MinDrop(v) == Drop(v[j], v[i])
    ensures MaxDrawdown(v) == if |v| == 1 then None else Some((v[j] - v[i]) / v[i])
    ensures forall a, b | 0 <= a <= b < |v| :: MinDrop(v) <= Drop(v[b], v[a])
  {
    var n := |v| - 1;
    var p := PeakReached(v);
    hide Drop;
    forall a | 0 <= a < |v| ensures Drop(v[n], Peak(v)) <= Drop(v[n], v[a]) {
      DropOrder(v[n], Peak(v), v[n], v[a]);
    }
    i, j := p, n;
    if n > 0 {
      var i', j' := ScanIsWorstPair(v[..n]);
      assert forall a | 0 <= a < n :: v[..n][a] == v[a];
      if MinDrop(v) == MinDrop(v[..n]) { i, j := i', j'; }
      hide Peak;
      forall a, b | 0 <= a <= b < |v| ensures MinDrop(v) <= Drop(v[b], v[a]) {
        if b < n { assert MinDrop(v[..n]) <= Drop(v[..n][b], v[..n][a]); }
      }
    }
  }

  /** The session report: lowest value against highest, whichever came first. */
  function PeakTrough(v: seq<real>): real {
    if v == [] || Peak(v) <= 0.0 then 0.0 else Drop(Trough(v), Peak(v))
  }

  /**
   * The order-blind figure is never above the true drawdown, and equals it exactly when the highest value is reached
   * no later than some occurrence of the lowest.
   */
  lemma OrderBlindIsPessimistic(v: seq<real>)
    requires Positive(v) && |v| >= 2
    ensures PeakTrough(v) <= MaxDrawdown(v).value
    ensures PeakTrough(v) == MaxDrawdown(v).value
            <==> exists i, j :: 0 <= i <= j < |v| && v[i] == Peak(v) && v[j] == Trough(v)
  {
    var p := PeakReached(v);
    var t := TroughReached(v);
    var i, j := ScanIsWorstPair(v);
    DropOrder(Trough(v), Peak(v), v[j], v[i]);
    hide Drop, Peak, Trough, MinDrop;
    assert PeakTrough(v) == MaxDrawdown(v).value ==> v[i] == Peak(v) && v[j] == Trough(v);
    if a, b :| 0 <= a <= b < |v| && v[a] == Peak(v) && v[b] == Trough(v) {
      assert MinDrop(v) <= Drop(v[b], v[a]);
    }
  }
}
