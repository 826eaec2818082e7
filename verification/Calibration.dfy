/**
 * Confidence calibration: Brier score and expected calibration error (src/agentic_investor/eval/agents.py) and
 * index-based binning of trade outcomes (src/agentic_investor/ops/calibration.py).
 */
module Calibration {
  import opened Basics

  datatype Sample = Sample(confidence: real, hit: bool)

  function Truth(s: Sample): real {
    if s.hit then 1.0 else 0.0
  }

  function Square(x: real): real {
    x * x
  }

  // ---- sums over sample lists ----

  function SumConfidence(ss: seq<Sample>): real {
    if ss == [] then 0.0 else SumConfidence(ss[..|ss| - 1]) + ss[|ss| - 1].confidence
  }

  function SumTruth(ss: seq<Sample>): real {
    if ss == [] then 0.0 else SumTruth(ss[..|ss| - 1]) + Truth(ss[|ss| - 1])
  }

  function SumSquares(ss: seq<Sample>): real {
    if ss == [] then 0.0
    else SumSquares(ss[..|ss| - 1]) + Square(ss[|ss| - 1].confidence - Truth(ss[|ss| - 1]))
  }

  function SumAbs(ss: seq<Sample>): real {
    if ss == [] then 0.0 else SumAbs(ss[..|ss| - 1]) + Abs(ss[|ss| - 1].confidence - Truth(ss[|ss| - 1]))
  }

  /** Bin `i` of ten holds lo <= c < hi; the last bin also holds c = 1. */
  predicate InBin(c: real, i: int) {
    (i as real * 0.1 <= c && c < (i + 1) as real * 0.1) || (i == 9 && c == 1.0)
  }

  function Bin(ss: seq<Sample>, i: int): seq<Sample> {
    if ss == [] then []
    else
      var init, s := Bin(ss[..|ss| - 1], i), ss[|ss| - 1];
      if InBin(s.confidence, i) then init + [s] else init
  }

  /** What one bin adds to the calibration error over `n` samples. */
  function BinError(bin: seq<Sample>, n: nat): real
    requires n > 0
  {
    if bin == [] then 0.0
    else
      var k := |bin| as real;
      Weighted(k, n as real, Abs(SumConfidence(bin) / k - SumTruth(bin) / k))
  }

  function Weighted(k: real, n: real, x: real): real
    requires n != 0.0
  {
    (k / n) * x
  }

  /** Calibration error from the first `i` bins. */
  function ErrorUpTo(ss: seq<Sample>, i: nat): real
    requires ss != []
  {
    if i == 0 then 0.0 else ErrorUpTo(ss, i - 1) + BinError(Bin(ss, i - 1), |ss|)
  }

  method Filter(ss: seq<Sample>, i: int) returns (bin: seq<Sample>)
    ensures bin == Bin(ss, i)
  {
    bin := [];
    for k := 0 to |ss|
      invariant bin == Bin(ss[..k], i)
    {
      assert ss[..k + 1][..k] == ss[..k];
      if InBin(ss[k].confidence, i) {
        bin := bin + [ss[k]];
      }
    }
    assert ss[..|ss|] == ss;
  }

  method Sums(ss: seq<Sample>) returns (conf: real, truth: real, squares: real)
    ensures conf == SumConfidence(ss) && truth == SumTruth(ss) && squares == SumSquares(ss)
  {
    hide Square;
    conf, truth, squares := 0.0, 0.0, 0.0;
    for k := 0 to |ss|
      invariant conf == SumConfidence(ss[..k]) && truth == SumTruth(ss[..k]) && squares == SumSquares(ss[..k])
    {
      assert ss[..k + 1][..k] == ss[..k];
      conf, truth := conf + ss[k].confidence, truth + Truth(ss[k]);
      squares := squares + Square(ss[k].confidence - Truth(ss[k]));
    }
    assert ss[..|ss|] == ss;
  }

  /** Brier score and calibration error; an empty list scores zero on both. */
  method ComputeCalibration(samples: seq<Sample>) returns (brier: real, ece: real)
    ensures samples == [] ==> brier == 0.0 && ece == 0.0
    ensures samples != [] ==> brier == SumSquares(samples) / |samples| as real && ece == ErrorUpTo(samples, 10)
    ensures 0.0 <= ece && Square(ece) <= brier
  {
    if samples == [] {
      return 0.0, 0.0;
    }
    hide Weighted, Square, Abs, Truth, InBin;
    var _, _, squares := Sums(samples);
    brier := squares / |samples| as real;
    ece := 0.0;
    for i := 0 to 10
      invariant ece == ErrorUpTo(samples, i)
    {
      var bucket := Filter(samples, i);
      if bucket == [] {
        continue;
      }
      var conf, acc, _ := Sums(bucket);
      var k := |bucket| as real;
      ece := ece + Weighted(k, |samples| as real, Abs(conf / k - acc / k));
    }
    CalibrationBound(samples);
  }

  // ---- ECE squared is at most the Brier score ----

  lemma BinTerm(k: real, n: real, a: real, b: real)
    requires k > 0.0 && n > 0.0
    ensures Weighted(k, n, Abs(a / k - b / k)) == Abs(a - b) / n
  {
    var d := a / k - b / k;
    assert k * d == a - b by {
      assert k * (a / k) == a && k * (b / k) == b;
    }
    if d >= 0.0 {
      Scaled(k, d, n);
    } else {
      Scaled(k, -d, n);
      assert k * -d == b - a;
    }
  }

  lemma Scaled(k: real, d: real, n: real)
    requires k > 0.0 && n > 0.0 && d >= 0.0
    ensures (k / n) * d == (k * d) / n && k * d >= 0.0
  {
    var r := k / n;
    assert r * n == k;
    assert (r * d) * n == k * d;
  }

  lemma {:induction false} BinGap(bin: seq<Sample>)
    ensures Abs(SumConfidence(bin) - SumTruth(bin)) <= SumAbs(bin)
  {
    if bin != [] { BinGap(bin[..|bin| - 1]); }
  }

  /** Number of the first `i` bins that hold `c`. */
  function Holders(c: real, i: nat): nat {
    if i == 0 then 0 else Holders(c, i - 1) + if InBin(c, i - 1) then 1 else 0
  }

  function SumBinAbs(ss: seq<Sample>, i: nat): real {
    if i == 0 then 0.0 else SumBinAbs(ss, i - 1) + SumAbs(Bin(ss, i - 1))
  }

  lemma {:induction false} HoldersBound(c: real, i: nat)
    requires i <= 10
    ensures Holders(c, i) <= 1
    ensures Holders(c, i) == 1 <==> (0.0 <= c && (c < i as real * 0.1 || (i == 10 && c == 1.0)))
  {
    if i > 0 {
      HoldersBound(c, i - 1);
      assert i as real * 0.1 == (i - 1) as real * 0.1 + 0.1;
    }
  }

  /** The ten bins partition [0, 1]: a confidence lies in exactly one bin when in range and in none otherwise. */
  lemma BinsPartition(c: real)
    ensures Holders(c, 10) == if 0.0 <= c <= 1.0 then 1 else 0
  {
    HoldersBound(c, 10);
    assert 10 as real * 0.1 == 1.0;
  }

  lemma {:induction false} SumBinAppend(ss: seq<Sample>, i: nat)
    requires ss != [] && i <= 10
    ensures var init, s := ss[..|ss| - 1], ss[|ss| - 1];
            SumBinAbs(ss, i)
            == SumBinAbs(init, i) + if Holders(s.confidence, i) == 1 then Abs(s.confidence - Truth(s)) else 0.0
  {
    hide InBin, Abs, Truth;
    if i > 0 {
      var init, s := ss[..|ss| - 1], ss[|ss| - 1];
      SumBinAppend(ss, i - 1);
      HoldersBound(s.confidence, i);
      assert (Bin(init, i - 1) + [s])[..|Bin(init, i - 1)|] == Bin(init, i - 1);
    }
  }

  lemma {:induction false} BinsCoverAtMostOnce(ss: seq<Sample>)
    ensures SumBinAbs(ss, 10) <= SumAbs(ss)
  {
    if ss == [] {
      NoBins(10);
    } else {
      BinsCoverAtMostOnce(ss[..|ss| - 1]);
      SumBinAppend(ss, 10);
    }
  }

  lemma {:induction false} NoBins(i: nat)
    ensures SumBinAbs([], i) == 0.0
  {
    if i > 0 { NoBins(i - 1); }
  }

  lemma {:induction false} ErrorBound(ss: seq<Sample>, i: nat)
    requires ss != []
    ensures 0.0 <= ErrorUpTo(ss, i) <= SumBinAbs(ss, i) / |ss| as real
  {
    hide Weighted, Abs;
    if i > 0 {
      ErrorBound(ss, i - 1);
      var bin, n := Bin(ss, i - 1), |ss| as real;
      BinGap(bin);
      BinErrorBound(bin, |ss|);
      AddRatios(SumBinAbs(ss, i - 1), SumAbs(bin), n);
    }
  }

  lemma BinErrorBound(bin: seq<Sample>, n: nat)
    requires n > 0
    ensures 0.0 <= BinError(bin, n) <= SumAbs(bin) / n as real
  {
    hide Weighted;
    if bin != [] {
      BinGap(bin);
      BinTerm(|bin| as real, n as real, SumConfidence(bin), SumTruth(bin));
      RatioMonotone(Abs(SumConfidence(bin) - SumTruth(bin)), SumAbs(bin), n as real);
    }
  }

  lemma RatioMonotone(a: real, b: real, n: real)
    requires n > 0.0 && 0.0 <= a <= b
    ensures 0.0 <= a / n <= b / n
  {
  }

  lemma AddRatios(a: real, b: real, n: real)
    requires n > 0.0
    ensures (a + b) / n == a / n + b / n
  {
  }

  /** Cauchy-Schwarz: the square of a sum of n terms is at most n times the sum of their squares. */
  lemma {:induction false} CauchySchwarz(ss: seq<Sample>)
    ensures SumAbs(ss) >= 0.0 && SumSquares(ss) >= 0.0
    ensures Square(SumAbs(ss)) <= Scale(|ss|, SumSquares(ss))
  {
    hide Square, Scale, Truth;
    if ss == [] {
      ZeroTerms();
    } else {
      var init, s := ss[..|ss| - 1], ss[|ss| - 1];
      CauchySchwarz(init);
      var d := s.confidence - Truth(s);
      SquareOfAbs(d);
      CauchyStep(|init|, SumAbs(init), SumSquares(init), Abs(d));
    }
  }

  function Scale(n: nat, x: real): real {
    n as real * x
  }

  lemma ZeroTerms()
    ensures Square(0.0) == 0.0 && Scale(0, 0.0) == 0.0
  {
  }

  lemma SquareOfAbs(d: real)
    ensures Square(Abs(d)) == Square(d) && Square(d) >= 0.0
  {
  }

  lemma CauchyStep(n: nat, a: real, b: real, x: real)
    requires a >= 0.0 && b >= 0.0 && x >= 0.0 && Square(a) <= Scale(n, b)
    requires n == 0 ==> a == 0.0
    ensures Square(a + x) <= Scale(n + 1, b + Square(x))
  {
    var m, x2 := n as real, x * x;
    assert Square(a + x) == a * a + 2.0 * (a * x) + x2;
    assert Scale(n + 1, b + x2) == m * b + m * x2 + b + x2;
    if n == 0 {
      assert a == 0.0 && a * x == 0.0;
    } else {
      MeanBound(m, a, b, x);
    }
  }

  lemma MeanBound(m: real, a: real, b: real, x: real)
    requires m > 0.0 && a * a <= m * b
    ensures 2.0 * (a * x) <= m * (x * x) + b
  {
    var y := m * x - a;
    assert y * y >= 0.0;
    assert y * y == m * (m * (x * x)) - m * (2.0 * (a * x)) + a * a;
    var gap := m * (x * x) + b - 2.0 * (a * x);
    assert m * gap == m * (m * (x * x)) + m * b - m * (2.0 * (a * x));
    assert m * gap >= 0.0;
  }

  /** For every non-empty sample list the squared calibration error is at most the Brier score. */
  lemma CalibrationBound(ss: seq<Sample>)
    requires ss != []
    ensures var ece := ErrorUpTo(ss, 10);
            0.0 <= ece && Square(ece) <= SumSquares(ss) / |ss| as real
  {
    hide Square, Scale;
    var n := |ss| as real;
    ErrorBound(ss, 10);
    BinsCoverAtMostOnce(ss);
    CauchySchwarz(ss);
    SumBinNonNegative(ss, 10);
    RatioMonotone(SumBinAbs(ss, 10), SumAbs(ss), n);
    RootBound(ErrorUpTo(ss, 10), |ss|, SumAbs(ss), SumSquares(ss));
  }

  lemma {:induction false} SumBinNonNegative(ss: seq<Sample>, i: nat)
    ensures SumBinAbs(ss, i) >= 0.0
  {
    if i > 0 {
      SumBinNonNegative(ss, i - 1);
      BinGap(Bin(ss, i - 1));
    }
  }

  lemma RootBound(e: real, n: nat, a: real, b: real)
    requires n > 0 && 0.0 <= e <= a / n as real && Square(a) <= Scale(n, b)
    ensures Square(e) <= b / n as real
  {
    var m := n as real;
    var r := a / m;
    assert r * m == a;
    assert e * e <= r * r by { ProductMonotone(e, r); }
    assert m * (m * (r * r)) == a * a;
    var q := b / m;
    assert q * m == b;
    assert Square(a) == a * a && Scale(n, b) == m * b;
    assert m * (m * q) == m * b;
    assert m * (m * (r * r)) <= m * (m * q);
    Cancel(m, m * (r * r), m * q);
    Cancel(m, r * r, q);
  }

  lemma ProductMonotone(e: real, r: real)
    requires 0.0 <= e <= r
    ensures e * e <= r * r
  {
  }

  lemma Cancel(m: real, x: real, y: real)
    requires m > 0.0 && m * x <= m * y
    ensures x <= y
  {
    if x > y { Strict(m, x, y); }
  }

  lemma Strict(m: real, x: real, y: real)
    requires m > 0.0 && x > y
    ensures m * x > m * y
  {
    assert m * (x - y) > 0.0;
  }

  // ---- exact values ----

  /** Sum over the first `i` bins of |confidences - hits|. */
  function SumGaps(ss: seq<Sample>, i: nat): real {
    if i == 0 then 0.0 else SumGaps(ss, i - 1) + Abs(SumConfidence(Bin(ss, i - 1)) - SumTruth(Bin(ss, i - 1)))
  }

  /** The error is the sum of the bins' gaps between summed confidence and hits, over the sample count. */
  lemma {:induction false} ErrorIsGaps(ss: seq<Sample>, i: nat)
    requires ss != []
    ensures ErrorUpTo(ss, i) == SumGaps(ss, i) / |ss| as real
  {
    hide Weighted;
    if i > 0 {
      ErrorIsGaps(ss, i - 1);
      var bin, n := Bin(ss, i - 1), |ss| as real;
      if bin != [] { BinTerm(|bin| as real, n, SumConfidence(bin), SumTruth(bin)); }
      AddRatios(SumGaps(ss, i - 1), Abs(SumConfidence(bin) - SumTruth(bin)), n);
    }
  }

  function Hits(ss: seq<Sample>): nat {
    if ss == [] then 0 else Hits(ss[..|ss| - 1]) + if ss[|ss| - 1].hit then 1 else 0
  }

  predicate Constant(ss: seq<Sample>, c: real) {
    forall s | s in ss :: s.confidence == c
  }

  /** With one confidence c for all samples, h of n hits: h squares (1 - c)^2 and n - h squares c^2 are summed. */
  lemma {:induction false} ConstantSums(ss: seq<Sample>, c: real)
    requires Constant(ss, c)
    ensures SumConfidence(ss) == Times(|ss| as real, c) && SumTruth(ss) == Hits(ss) as real
    ensures SumSquares(ss)
            == Times(Hits(ss) as real, (1.0 - c) * (1.0 - c)) + Times((|ss| - Hits(ss)) as real, c * c)
    ensures Hits(ss) <= |ss|
  {
    hide Times, Square;
    if ss == [] {
      TimesZero(c);
      TimesZero(c * c);
      TimesZero((1.0 - c) * (1.0 - c));
    } else {
      var init, s := ss[..|ss| - 1], ss[|ss| - 1];
      ConstantSums(init, c);
      assert s in ss;
      OneMore(|init| as real, c);
      OneMore(Hits(init) as real, (1.0 - c) * (1.0 - c));
      OneMore((|init| - Hits(init)) as real, c * c);
      SquareTerms(c);
    }
  }

  lemma SquareTerms(c: real)
    ensures Square(c - 1.0) == (1.0 - c) * (1.0 - c) && Square(c - 0.0) == c * c
  {
  }

  lemma OneMore(n: real, x: real)
    ensures Times(n + 1.0, x) == Times(n, x) + x
  {
  }

  lemma {:induction false} ConstantBin(ss: seq<Sample>, c: real, i: int)
    requires Constant(ss, c)
    ensures Bin(ss, i) == if InBin(c, i) then ss else []
  {
    if ss != [] {
      ConstantBin(ss[..|ss| - 1], c, i);
      assert ss[|ss| - 1] in ss;
    }
  }

  lemma NoGap()
    ensures Abs(SumConfidence([]) - SumTruth([])) == 0.0
  {
  }

  lemma {:induction false} ConstantGaps(ss: seq<Sample>, c: real, i: nat)
    requires Constant(ss, c)
    ensures SumGaps(ss, i) == Times(Holders(c, i) as real, Abs(SumConfidence(ss) - SumTruth(ss)))
  {
    hide Times, InBin, SumConfidence, SumTruth, Abs, Constant;
    var gap := Abs(SumConfidence(ss) - SumTruth(ss));
    TimesZero(gap);
    if i > 0 {
      ConstantGaps(ss, c, i - 1);
      ConstantBin(ss, c, i - 1);
      OneMore(Holders(c, i - 1) as real, gap);
      assert Abs(SumConfidence([]) - SumTruth([])) == 0.0 by { NoGap(); }
    }
  }

  /** And for c in [0, 1] the calibration error is |c - h/n|. */
  lemma ConstantError(ss: seq<Sample>, c: real)
    requires ss != [] && Constant(ss, c) && 0.0 <= c <= 1.0
    ensures ErrorUpTo(ss, 10) == Abs(c - Hits(ss) as real / |ss| as real)
  {
    hide ErrorUpTo, SumGaps, Holders, Hits, SumConfidence, SumTruth, SumSquares;
    ConstantSums(ss, c);
    BinsPartition(c);
    ConstantGaps(ss, c, 10);
    ErrorIsGaps(ss, 10);
    var gap := Abs(SumConfidence(ss) - SumTruth(ss));
    OneMore(0.0, gap);
    TimesZero(gap);
    GapOverCount(|ss| as real, c, Hits(ss) as real);
    hide Times, Abs;
  }

  lemma GapOverCount(n: real, c: real, h: real)
    requires n > 0.0
    ensures Abs(Times(n, c) - h) / n == Abs(c - h / n)
  {
    var gap := c - h / n;
    assert (h / n) * n == h;
    assert gap * n == Times(n, c) - h;
    if gap >= 0.0 {
      assert Times(n, c) - h >= 0.0;
    } else {
      assert -gap * n > 0.0;
    }
  }

  // ---- index binning of trade outcomes ----

  datatype Outcome = Outcome(confidence: real, win: real)

  datatype Bucket = Bucket(nTrades: nat, nWins: real, confidences: seq<real>)

  /** Python's `int`: truncation toward zero. */
  function Trunc(x: real): int {
    if x >= 0.0 then x.Floor else -((-x).Floor)
  }

  /** The list position an outcome is written to: a negative index counts from the end, beyond it is an error. */
  function Position(c: real, n: nat): Option<nat>
    requires n > 0
  {
    var t := Trunc(c * n as real);
    var idx := if t <= n - 1 then t else n - 1;
    if idx >= 0 then Some(idx) else if idx + n >= 0 then Some(idx + n) else None
  }

  function Selected(os: seq<Outcome>, n: nat, i: nat): seq<Outcome>
    requires n > 0
  {
    if os == [] then []
    else
      var init, o := Selected(os[..|os| - 1], n, i), os[|os| - 1];
      if Position(o.confidence, n) == Some(i) then init + [o] else init
  }

  function Fill(os: seq<Outcome>): Bucket {
    if os == [] then Bucket(0, 0.0, [])
    else Add(Fill(os[..|os| - 1]), os[|os| - 1])
  }

  function Add(b: Bucket, o: Outcome): Bucket {
    Bucket(b.nTrades + 1, b.nWins + o.win, b.confidences + [o.confidence])
  }

  predicate AllPlaced(os: seq<Outcome>, n: nat)
    requires n > 0
  {
    forall o | o in os :: Position(o.confidence, n).Some?
  }

  /** The binning loop; an outcome outside every list position raises and no table is returned. */
  method BucketOutcomes(os: seq<Outcome>, n: nat) returns (r: Option<seq<Bucket>>)
    requires n > 0
    ensures r.Some? <==> AllPlaced(os, n)
    ensures r.Some? ==> |r.value| == n && forall i | 0 <= i < n :: r.value[i] == Fill(Selected(os, n, i))
    ensures r.Some? ==> TotalTrades(r.value) == |os|
  {
    var buckets := seq(n, i => Bucket(0, 0.0, []));
    assert forall i | 0 <= i < n :: Fill(Selected(os[..0], n, i)) == Bucket(0, 0.0, []);
    hide Position, Fill, Selected, TotalTrades, Add;
    for k := 0 to |os|
      invariant |buckets| == n && AllPlaced(os[..k], n)
      invariant forall i | 0 <= i < n :: buckets[i] == Fill(Selected(os[..k], n, i))
    {
      assert os[..k + 1] == os[..k] + [os[k]];
      assert forall o | o in os[..k + 1] :: o in os[..k] || o == os[k];
      var at := Position(os[k].confidence, n);
      if at.None? {
        return None;
      }
      PositionInRange(os[k].confidence, n);
      forall i | 0 <= i < n { SelectedAppend(os[..k], os[k], n, i); }
      buckets := buckets[at.value := Add(buckets[at.value], os[k])];
    }
    assert os[..|os|] == os;
    CountsAddUp(os, n, buckets);
    r := Some(buckets);
  }

  lemma PositionInRange(c: real, n: nat)
    requires n > 0 && Position(c, n).Some?
    ensures Position(c, n).value < n
  {
  }

  lemma SelectedAppend(os: seq<Outcome>, o: Outcome, n: nat, i: nat)
    requires n > 0
    ensures var b := Fill(Selected(os, n, i));
            Fill(Selected(os + [o], n, i)) == if Position(o.confidence, n) == Some(i) then Add(b, o) else b
  {
    assert (os + [o])[..|os|] == os;
    assert (Selected(os, n, i) + [o])[..|Selected(os, n, i)|] == Selected(os, n, i);
  }

  function TotalTrades(bs: seq<Bucket>): nat {
    if bs == [] then 0 else TotalTrades(bs[..|bs| - 1]) + bs[|bs| - 1].nTrades
  }

  /** Outcomes selected for one of the first `m` buckets. */
  function PlacedBelow(os: seq<Outcome>, n: nat, m: nat): nat
    requires n > 0
  {
    if os == [] then 0
    else
      var p := Position(os[|os| - 1].confidence, n);
      PlacedBelow(os[..|os| - 1], n, m) + if p.Some? && p.value < m then 1 else 0
  }

  lemma {:induction false} FillCounts(os: seq<Outcome>)
    ensures Fill(os).nTrades == |os| && |Fill(os).confidences| == |os|
  {
    if os != [] { FillCounts(os[..|os| - 1]); }
  }

  lemma {:induction false} PlacedStep(os: seq<Outcome>, n: nat, m: nat)
    requires n > 0
    ensures PlacedBelow(os, n, m + 1) == PlacedBelow(os, n, m) + |Selected(os, n, m)|
    ensures PlacedBelow(os, n, 0) == 0
  {
    hide Position;
    if os != [] { PlacedStep(os[..|os| - 1], n, m); }
  }

  lemma {:induction false} TotalUpTo(os: seq<Outcome>, n: nat, bs: seq<Bucket>)
    requires n > 0 && forall i | 0 <= i < |bs| :: bs[i] == Fill(Selected(os, n, i))
    ensures TotalTrades(bs) == PlacedBelow(os, n, |bs|)
  {
    if bs == [] {
      PlacedStep(os, n, 0);
    } else {
      var m := |bs| - 1;
      TotalUpTo(os, n, bs[..m]);
      PlacedStep(os, n, m);
      FillCounts(Selected(os, n, m));
    }
  }

  lemma {:induction false} AllBelow(os: seq<Outcome>, n: nat)
    requires n > 0 && AllPlaced(os, n)
    ensures PlacedBelow(os, n, n) == |os|
  {
    hide Position;
    if os != [] {
      AllBelow(os[..|os| - 1], n);
      PositionInRange(os[|os| - 1].confidence, n);
    }
  }

  function SumWins(os: seq<Outcome>): real {
    if os == [] then 0.0 else SumWins(os[..|os| - 1]) + os[|os| - 1].win
  }

  /** A bucket holds the number of its outcomes, the sum of their wins, and their confidences in order. */
  lemma {:induction false} FillMeaning(os: seq<Outcome>)
    ensures Fill(os).nTrades == |os| && Fill(os).nWins == SumWins(os) && |Fill(os).confidences| == |os|
    ensures forall k | 0 <= k < |os| :: Fill(os).confidences[k] == os[k].confidence
  {
    if os != [] { FillMeaning(os[..|os| - 1]); }
  }

  /** No outcome is lost or counted twice. */
  lemma CountsAddUp(os: seq<Outcome>, n: nat, bs: seq<Bucket>)
    requires n > 0 && AllPlaced(os, n) && |bs| == n
    requires forall i | 0 <= i < n :: bs[i] == Fill(Selected(os, n, i))
    ensures TotalTrades(bs) == |os|
  {
    TotalUpTo(os, n, bs);
    AllBelow(os, n);
  }

  /** Bucket `i` of `n` covers i/n <= c < (i+1)/n; the last one also holds c = 1. */
  predicate InRange(c: real, n: nat, i: int)
    requires n > 0
  {
    (i as real * (1.0 / n as real) <= c && c < (i + 1) as real * (1.0 / n as real)) || (i == n - 1 && c == 1.0)
  }

  lemma IndexRange(c: real, n: nat, i: int)
    requires n > 0
    ensures InRange(c, n, i)
            <==> (i as real <= c * n as real && c * n as real < (i + 1) as real) || (i == n - 1 && c == 1.0)
  {
    var m, step := n as real, 1.0 / n as real;
    assert step * m == 1.0;
    Below(i as real, c, m, step);
    Below((i + 1) as real, c, m, step);
  }

  lemma Below(k: real, c: real, m: real, step: real)
    requires m > 0.0 && step * m == 1.0
    ensures k * step <= c <==> k <= c * m
  {
    assert (k * step) * m == k;
    if k * step <= c {
      ScaleUp(m, k * step, c);
    } else {
      Strict(m, k * step, c);
    }
  }

  lemma ScaleUp(m: real, x: real, y: real)
    requires m > 0.0 && x <= y
    ensures m * x <= m * y
  {
    assert m * (y - x) >= 0.0;
  }

  /** An outcome lands in the bucket whose range holds its confidence exactly when the confidence is in [0, 1]. */
  lemma IndexIsRange(c: real, n: nat)
    requires n > 0
    ensures (Position(c, n).Some? && InRange(c, n, Position(c, n).value)) <==> 0.0 <= c <= 1.0
  {
    hide InRange;
    var m := n as real;
    var x := c * m;
    ScaledOrder(c, m);
    PositionOf(x, n, c);
    if Position(c, n).Some? { IndexRange(c, n, Position(c, n).value); }
  }

  lemma ScaledOrder(c: real, m: real)
    requires m > 0.0
    ensures c < 0.0 <==> c * m < 0.0
    ensures c > 1.0 <==> c * m > m
    ensures c == 1.0 <==> c * m == m
  {
    if c < 0.0 { Strict(m, 0.0, c); } else { ScaleUp(m, 0.0, c); }
    if c > 1.0 { Strict(m, c, 1.0); } else if c < 1.0 { Strict(m, 1.0, c); }
  }

  lemma PositionOf(x: real, n: nat, c: real)
    requires n > 0 && x == c * n as real
    ensures x < 0.0 ==> Position(c, n).None? || Position(c, n).value >= 0
    ensures 0.0 <= x < n as real ==> Position(c, n) == Some(x.Floor)
    ensures x >= n as real ==> Position(c, n) == Some(n - 1)
  {
  }

  /** At ten buckets the two modules bin alike: the range filter and the index rule pick the same bin in [0, 1]. */
  lemma BinningsAgree(c: real, i: nat)
    requires i < 10
    ensures InBin(c, i) <==> 0.0 <= c <= 1.0 && Position(c, 10) == Some(i)
  {
  }

  /** Out of range the index rule still counts the outcome in some bucket, or raises far below zero. */
  lemma OutOfRange(c: real)
    ensures c > 1.0 ==> Position(c, 10) == Some(9)
    ensures -0.1 < c < 0.0 ==> Position(c, 10) == Some(0)
    ensures Position(c, 10).None? <==> c <= -1.1
  {
  }
}
