/** Retrieval metrics with binary relevance (src/agentic_investor/eval/retrieval.py). */
module Retrieval {
  import opened Basics

  /** The rank discount 1 / log2(rank + 1): any positive, strictly decreasing function of the rank. */
  ghost predicate Discount(d: nat -> real) {
    && (forall i: nat :: d(i) > 0.0)
    && (forall i: nat, j: nat :: i < j ==> d(i) > d(j))
  }

  function Top(retrieved: seq<string>, k: nat): seq<string> {
    if k <= |retrieved| then retrieved[..k] else retrieved
  }

  function HitAtK(retrieved: seq<string>, relevant: set<string>, k: nat): real {
    if exists id | id in Top(retrieved, k) :: id in relevant then 1.0 else 0.0
  }

  function RecallAtK(retrieved: seq<string>, relevant: set<string>, k: nat): real {
    if relevant == {} then 0.0
    else |(set id | id in Top(retrieved, k)) * relevant| as real / |relevant| as real
  }

  /** Reciprocal rank of the first relevant result, the search having already passed `seen` results. */
  function Mrr(retrieved: seq<string>, relevant: set<string>, seen: nat := 0): real {
    if retrieved == [] then 0.0
    else if retrieved[0] in relevant then 1.0 / (seen + 1) as real
    else Mrr(retrieved[1..], relevant, seen + 1)
  }

  /** Discounted gain of `ids`, ranks counted from 1. */
  function Dcg(ids: seq<string>, relevant: set<string>, d: nat -> real): real {
    if ids == [] then 0.0
    else
      Dcg(ids[..|ids| - 1], relevant, d) + if ids[|ids| - 1] in relevant then d(|ids|) else 0.0
  }

  /** Discounted gain of `n` relevant results in a row. */
  function Ideal(n: nat, d: nat -> real): real {
    if n == 0 then 0.0 else Ideal(n - 1, d) + d(n)
  }

  function NdcgAtK(retrieved: seq<string>, relevant: set<string>, k: nat, d: nat -> real): real {
    var idcg := Ideal(MinNat(|relevant|, k), d);
    if idcg > 0.0 then Dcg(Top(retrieved, k), relevant, d) / idcg else 0.0
  }

  predicate Distinct(ids: seq<string>) {
    forall i, j | 0 <= i < j < |ids| :: ids[i] != ids[j]
  }

  function Hits(ids: seq<string>, relevant: set<string>): nat {
    if ids == [] then 0 else Hits(ids[..|ids| - 1], relevant) + if ids[|ids| - 1] in relevant then 1 else 0
  }

  function Ids(ids: seq<string>): set<string> {
    set id | id in ids
  }

  /** Without repeats, hits are counted by the set of relevant results. */
  lemma {:induction false} HitsAreMembers(ids: seq<string>, relevant: set<string>)
    requires Distinct(ids)
    ensures Hits(ids, relevant) == |Ids(ids) * relevant|
    ensures Hits(ids, relevant) <= |ids|
  {
    if ids == [] {
      assert Ids(ids) == {};
    } else {
      var init, id := ids[..|ids| - 1], ids[|ids| - 1];
      HitsAreMembers(init, relevant);
      assert forall x | x in ids :: x in init || x == id;
      assert id !in init;
      if id in relevant {
        assert Ids(ids) * relevant == Ids(init) * relevant + {id};
      } else {
        assert Ids(ids) * relevant == Ids(init) * relevant;
      }
    }
  }

  /** `h` hits score at most the first `h` discounts, with equality only when the hits come first. */
  lemma {:induction false} DcgBound(ids: seq<string>, relevant: set<string>, d: nat -> real)
    requires Discount(d)
    ensures var h := Hits(ids, relevant);
            && h <= |ids|
            && 0.0 <= Dcg(ids, relevant, d) <= Ideal(h, d)
            && (Dcg(ids, relevant, d) == Ideal(h, d) <==> forall i | 0 <= i < h :: ids[i] in relevant)
  {
    if ids != [] {
      var init, id := ids[..|ids| - 1], ids[|ids| - 1];
      DcgBound(init, relevant, d);
      var h := Hits(init, relevant);
      assert forall i | 0 <= i < |init| :: ids[i] == init[i];
      if id in relevant {
        if h < |init| {
          assert d(h + 1) > d(|ids|);
          if forall i | 0 <= i < h + 1 :: ids[i] in relevant { FirstHits(init, relevant, h + 1); }
        } else {
          FullHits(init, relevant);
        }
      }
    }
  }

  /** A run of `n` relevant results at the front is `n` hits. */
  lemma {:induction false} FirstHits(ids: seq<string>, relevant: set<string>, n: nat)
    requires n <= |ids| && forall i | 0 <= i < n :: ids[i] in relevant
    ensures Hits(ids, relevant) >= n
  {
    if n > 0 {
      var init := ids[..|ids| - 1];
      if n == |ids| { FirstHits(init, relevant, n - 1); } else { FirstHits(init, relevant, n); }
    }
  }

  lemma {:induction false} FullHits(ids: seq<string>, relevant: set<string>)
    requires Hits(ids, relevant) >= |ids|
    ensures forall i | 0 <= i < |ids| :: ids[i] in relevant
  {
    if ids != [] {
      HitsAtMost(ids[..|ids| - 1], relevant);
      FullHits(ids[..|ids| - 1], relevant);
      assert forall i | 0 <= i < |ids| - 1 :: ids[i] == ids[..|ids| - 1][i];
    }
  }

  lemma {:induction false} HitsAtMost(ids: seq<string>, relevant: set<string>)
    ensures Hits(ids, relevant) <= |ids|
  {
    if ids != [] { HitsAtMost(ids[..|ids| - 1], relevant); }
  }

  lemma {:induction false} IdealMonotone(m: nat, n: nat, d: nat -> real)
    requires Discount(d) && m <= n
    ensures 0.0 <= Ideal(m, d) <= Ideal(n, d)
    ensures m < n ==> Ideal(m, d) < Ideal(n, d)
    decreases n
  {
    if n > 0 {
      if m < n {
        IdealMonotone(m, n - 1, d);
      } else {
        IdealMonotone(m - 1, n - 1, d);
      }
    }
  }

  lemma {:induction false} HitsOfTop(retrieved: seq<string>, relevant: set<string>, k: nat)
    ensures Hits(Top(retrieved, k), relevant) <= |Top(retrieved, k)| <= k
    ensures Distinct(retrieved) ==> Hits(Top(retrieved, k), relevant) <= |relevant|
  {
    HitsAtMost(Top(retrieved, k), relevant);
    if Distinct(retrieved) {
      HitsAreMembers(Top(retrieved, k), relevant);
      SubsetSize(Ids(Top(retrieved, k)) * relevant, relevant);
    }
  }

  /**
   * While the first k results hold at most |relevant| hits - as they do without repeats - NDCG is in [0, 1], and 1
   * exactly when the first min(|relevant|, k) results are all relevant.
   */
  lemma NdcgBound(retrieved: seq<string>, relevant: set<string>, k: nat, d: nat -> real)
    requires Discount(d) && Hits(Top(retrieved, k), relevant) <= |relevant|
    ensures var ndcg, m := NdcgAtK(retrieved, relevant, k, d), MinNat(|relevant|, k);
            && 0.0 <= ndcg <= 1.0
            && (m == 0 ==> ndcg == 0.0)
            && (m > 0 ==> (ndcg == 1.0 <==> m <= |retrieved| && forall i | 0 <= i < m :: retrieved[i] in relevant))
  {
    var ids, m := Top(retrieved, k), MinNat(|relevant|, k);
    var h := Hits(ids, relevant);
    HitsOfTop(retrieved, relevant, k);
    DcgBound(ids, relevant, d);
    IdealMonotone(h, m, d);
    IdealMonotone(0, m, d);
    if m > 0 {
      RatioBound(Dcg(ids, relevant, d), Ideal(m, d));
      if m <= |retrieved| && forall i | 0 <= i < m :: retrieved[i] in relevant {
        FirstHits(ids, relevant, m);
      }
    }
  }

  /** A nearly flat discount: strictly decreasing, yet between 1 and 1 + 1/(n + 1). */
  function Flat(n: nat): nat -> real {
    (i: nat) => 1.0 + (1.0 / (n + 1) as real) / (i + 1) as real
  }

  lemma FlatIsDiscount(n: nat)
    ensures Discount(Flat(n))
    ensures forall i: nat :: 1.0 < Flat(n)(i) <= 1.0 + 1.0 / (n + 1) as real
  {
    var c := 1.0 / (n + 1) as real;
    forall i: nat ensures 1.0 < Flat(n)(i) <= 1.0 + c { Share(c, (i + 1) as real, 1.0); }
    forall i: nat, j: nat | i < j ensures Flat(n)(i) > Flat(n)(j) { Share(c, (j + 1) as real, (i + 1) as real); }
  }

  lemma Share(c: real, x: real, y: real)
    requires c > 0.0 && x >= y >= 1.0
    ensures 0.0 < c / x <= c / y <= c
    ensures x > y ==> c / x < c / y
  {
    Reciprocal(y, x);
    Reciprocal(1.0, y);
    assert c / x == c * (1.0 / x) && c / y == c * (1.0 / y);
    var gap := 1.0 / y - 1.0 / x;
    assert c * (1.0 / y) - c * (1.0 / x) == c * gap;
  }

  /** Under the flat discount `h` hits score at least `h`. */
  lemma {:induction false} FlatScores(ids: seq<string>, relevant: set<string>, n: nat)
    ensures Dcg(ids, relevant, Flat(n)) >= Hits(ids, relevant) as real
  {
    FlatIsDiscount(n);
    hide Flat;
    if ids != [] { FlatScores(ids[..|ids| - 1], relevant, n); }
  }

  lemma {:induction false} FlatIdeal(r: nat, n: nat)
    ensures Ideal(r, Flat(n)) <= r as real + Times(r as real, 1.0 / (n + 1) as real)
  {
    FlatIsDiscount(n);
    hide Flat;
    var c := 1.0 / (n + 1) as real;
    if r > 0 {
      FlatIdeal(r - 1, n);
      TimesSub(r as real, 1.0, c);
      assert Times(1.0, c) == c;
    } else {
      TimesZero(c);
    }
    hide Times;
  }

  /** More hits than relevant ids beat the ideal under the flat discount. */
  lemma ExcessHitsScoreAboveOne(retrieved: seq<string>, relevant: set<string>, k: nat)
    requires Hits(Top(retrieved, k), relevant) > |relevant|
    ensures NdcgAtK(retrieved, relevant, k, Flat(|relevant|)) > 1.0
  {
    var r, ids := |relevant|, Top(retrieved, k);
    HitsOfTop(retrieved, relevant, k);
    FlatScores(ids, relevant, r);
    FlatIdeal(r, r);
    FlatIsDiscount(r);
    if r == 0 {
      NoHits(ids, relevant);
    } else {
      IdealMonotone(0, r, Flat(r));
      LessThanOne(r);
      AboveOne(Dcg(ids, relevant, Flat(r)), Ideal(r, Flat(r)));
    }
  }

  lemma LessThanOne(r: nat)
    ensures Times(r as real, 1.0 / (r + 1) as real) < 1.0
  {
    var c := 1.0 / (r + 1) as real;
    assert c * (r + 1) as real == 1.0;
    assert c > 0.0;
    assert r as real * c == c * (r + 1) as real - c;
  }

  lemma {:induction false} NoHits(ids: seq<string>, relevant: set<string>)
    requires relevant == {}
    ensures Hits(ids, relevant) == 0
  {
    if ids != [] { NoHits(ids[..|ids| - 1], relevant); }
  }

  /** NDCG stays at or below 1 for every discount exactly when the first k results hold at most |relevant| hits. */
  lemma NdcgAtMostOneIff(retrieved: seq<string>, relevant: set<string>, k: nat)
    ensures Hits(Top(retrieved, k), relevant) <= |relevant|
            <==> forall d | Discount(d) :: NdcgAtK(retrieved, relevant, k, d) <= 1.0
  {
    if Hits(Top(retrieved, k), relevant) <= |relevant| {
      forall d | Discount(d) ensures NdcgAtK(retrieved, relevant, k, d) <= 1.0 {
        NdcgBound(retrieved, relevant, k, d);
      }
    } else {
      ExcessHitsScoreAboveOne(retrieved, relevant, k);
      FlatIsDiscount(|relevant|);
    }
  }

  lemma RatioBound(a: real, b: real)
    requires 0.0 <= a <= b && b > 0.0
    ensures 0.0 <= a / b <= 1.0
    ensures a / b == 1.0 <==> a == b
    ensures a / b > 0.0 <==> a > 0.0
  {
    var r := a / b;
    assert r * b == a;
  }

  /** With a repeated result the score can exceed 1. */
  lemma RepeatsBreakTheBound(d: nat -> real)
    requires Discount(d)
    ensures NdcgAtK(["a", "a"], {"a"}, 2, d) > 1.0
  {
    var ids := ["a", "a"];
    assert ids[..1] == ["a"] && ["a"][..0] == [];
    assert Dcg(["a"], {"a"}, d) == d(1);
    assert Dcg(ids, {"a"}, d) == d(1) + d(2);
    assert Ideal(1, d) == Ideal(0, d) + d(1);
    assert |{"a"}| == 1;
    AboveOne(d(1) + d(2), d(1));
  }

  lemma AboveOne(a: real, b: real)
    requires a > b > 0.0
    ensures a / b > 1.0
  {
    var r := a / b;
    assert r * b == a;
  }

  // ---- hit, recall and reciprocal rank agree on success ----

  lemma {:induction false} MrrMeaning(retrieved: seq<string>, relevant: set<string>, seen: nat, k: nat)
    requires k > seen
    ensures Mrr(retrieved, relevant, seen) >= 1.0 / k as real
            <==> exists i :: 0 <= i < |retrieved| && i + seen < k && retrieved[i] in relevant
  {
    ReciprocalOrder(seen + 1, k);
    if retrieved != [] && retrieved[0] !in relevant {
      var rest := retrieved[1..];
      assert forall i | 1 <= i < |retrieved| :: retrieved[i] == rest[i - 1];
      if k == seen + 1 {
        MrrSmall(rest, relevant, seen + 1);
      } else {
        MrrMeaning(rest, relevant, seen + 1, k);
        if i :| 0 <= i < |retrieved| && i + seen < k && retrieved[i] in relevant {
          assert rest[i - 1] in relevant && i - 1 + (seen + 1) < k;
        }
        if i :| 0 <= i < |rest| && i + (seen + 1) < k && rest[i] in relevant {
          assert retrieved[i + 1] in relevant && i + 1 + seen < k;
        }
      }
    }
  }

  lemma {:induction false} MrrSmall(retrieved: seq<string>, relevant: set<string>, seen: nat)
    requires seen > 0
    ensures Mrr(retrieved, relevant, seen) < 1.0 / seen as real
  {
    ReciprocalOrder(seen, seen + 1);
    ReciprocalOrder(seen + 1, seen);
    if retrieved != [] { MrrSmall(retrieved[1..], relevant, seen + 1); }
  }

  lemma ReciprocalOrder(m: nat, n: nat)
    requires m > 0 && n > 0
    ensures 1.0 / m as real >= 1.0 / n as real <==> m <= n
    ensures 1.0 / m as real > 0.0
  {
    if m <= n { Reciprocal(m as real, n as real); } else { Reciprocal(n as real, m as real); }
  }

  lemma Reciprocal(x: real, y: real)
    requires 0.0 < x <= y
    ensures 1.0 / x >= 1.0 / y > 0.0
    ensures x < y ==> 1.0 / x > 1.0 / y
  {
    assert 1.0 / x - 1.0 / y == (y - x) / (x * y);
  }

  /** For every list and k >= 1: hit@k = 1 iff recall@k > 0 iff reciprocal rank >= 1/k. */
  lemma SuccessMeasuresAgree(retrieved: seq<string>, relevant: set<string>, k: nat)
    requires k >= 1
    ensures HitAtK(retrieved, relevant, k) == 1.0 <==> RecallAtK(retrieved, relevant, k) > 0.0
    ensures HitAtK(retrieved, relevant, k) == 1.0 <==> Mrr(retrieved, relevant) >= 1.0 / k as real
    ensures 0.0 <= RecallAtK(retrieved, relevant, k) <= 1.0
  {
    var top := Top(retrieved, k);
    var found := (set id | id in top) * relevant;
    MrrMeaning(retrieved, relevant, 0, k);
    if relevant != {} {
      SubsetSize(found, relevant);
      assert |relevant| > 0;
      RatioBound(|found| as real, |relevant| as real);
      assert |found| > 0 <==> found != {};
    }
    if i :| 0 <= i < |retrieved| && i + 0 < k && retrieved[i] in relevant {
      assert retrieved[i] == top[i];
      assert retrieved[i] in found;
    }
    if id :| id in top && id in relevant {
      var i :| 0 <= i < |top| && top[i] == id;
      assert retrieved[i] in relevant && i + 0 < k;
      assert id in found;
    }
  }

  // ---- exact values ----

  /** Recall is the share of the relevant ids found among the first k results, each counted once. */
  lemma RecallMeaning(retrieved: seq<string>, relevant: set<string>, k: nat, found: set<string>)
    requires relevant != {}
    requires forall id :: id in found <==>
               id in relevant && exists i :: 0 <= i < |retrieved| && i < k && retrieved[i] == id
    ensures RecallAtK(retrieved, relevant, k) == |found| as real / |relevant| as real
  {
    var top := Top(retrieved, k);
    forall id ensures id in top <==> exists i :: 0 <= i < |retrieved| && i < k && retrieved[i] == id {
      if i :| 0 <= i < |retrieved| && i < k && retrieved[i] == id { assert top[i] == id; }
      if id in top {
        var i :| 0 <= i < |top| && top[i] == id;
        assert retrieved[i] == id;
      }
    }
    assert found == (set id | id in top) * relevant;
  }

  /** The reciprocal rank is 1/(i + 1) for the first relevant position i, and 0 without one. */
  lemma {:induction false} MrrExact(retrieved: seq<string>, relevant: set<string>, seen: nat, i: nat)
    requires i <= |retrieved| && forall j | 0 <= j < i :: retrieved[j] !in relevant
    requires i < |retrieved| ==> retrieved[i] in relevant
    ensures Mrr(retrieved, relevant, seen) == if i < |retrieved| then 1.0 / (seen + i + 1) as real else 0.0
  {
    if i > 0 {
      assert forall j | 0 <= j < i - 1 :: retrieved[1..][j] == retrieved[j + 1];
      MrrExact(retrieved[1..], relevant, seen + 1, i - 1);
    }
  }

  lemma {:induction false} OneHitDcg(ids: seq<string>, x: string, i: nat, d: nat -> real)
    requires i < |ids| && ids[i] == x && forall j | 0 <= j < |ids| && j != i :: ids[j] != x
    ensures Dcg(ids, {x}, d) == d(i + 1)
  {
    var init := ids[..|ids| - 1];
    if i < |ids| - 1 { OneHitDcg(init, x, i, d); } else { NoHitDcg(init, {x}, d); }
  }

  lemma {:induction false} NoHitDcg(ids: seq<string>, relevant: set<string>, d: nat -> real)
    requires forall j | 0 <= j < |ids| :: ids[j] !in relevant
    ensures Dcg(ids, relevant, d) == 0.0
  {
    if ids != [] { NoHitDcg(ids[..|ids| - 1], relevant, d); }
  }

  /** A single relevant id, found once among the first k, scores the discount of its rank over that of rank 1. */
  lemma OneHitNdcg(retrieved: seq<string>, x: string, k: nat, i: nat, d: nat -> real)
    requires Discount(d) && i < |retrieved| && i < k && retrieved[i] == x
    requires forall j | 0 <= j < |retrieved| && j != i :: retrieved[j] != x
    ensures NdcgAtK(retrieved, {x}, k, d) == d(i + 1) / d(1)
  {
    var ids := Top(retrieved, k);
    assert forall j | 0 <= j < |ids| :: ids[j] == retrieved[j];
    OneHitDcg(ids, x, i, d);
    assert |{x}| == 1;
    assert Ideal(1, d) == Ideal(0, d) + d(1);
    assert d(1) > 0.0;
  }
}
