/** Definitions shared by all modules. */
module Basics {
  datatype Option<+T> = None | Some(value: T)

  function Get<V>(m: map<string, V>, k: string, default: V): V {
    if k in m then m[k] else default
  }

  function MinNat(a: nat, b: nat): nat {
    if a <= b then a else b
  }

  lemma SubsetSize<T>(a: set<T>, b: set<T>)
    requires a <= b
    ensures |a| <= |b|
    ensures |a| == |b| ==> a == b
  {
    assert b == a + (b - a);
    if |a| == |b| { assert b - a == {}; }
  }

  function Min(a: real, b: real): real {
    if a <= b then a else b
  }

  function Max(a: real, b: real): real {
    if a >= b then a else b
  }

  function Abs(x: real): real {
    if x >= 0.0 then x else -x
  }

  /** A product, by name: proofs that only rearrange sums of products hide its definition. */
  function Times(a: real, b: real): real {
    a * b
  }

  lemma TimesZero(b: real)
    ensures Times(0.0, b) == 0.0
    ensures Times(b, 0.0) == 0.0
  {
  }

  lemma TimesSub(a: real, b: real, c: real)
    ensures Times(a - b, c) == Times(a, c) - Times(b, c)
    ensures Times(c, a - b) == Times(c, a) - Times(c, b)
    ensures Times(a, c) == Times(c, a)
  {
  }

  lemma TimesSign(a: real, b: real)
    requires a >= 0.0 && b > 0.0
    ensures Times(a, b) >= 0.0 && (Times(a, b) == 0.0 <==> a == 0.0)
  {
  }

  /** Division undone. */
  lemma RatioTimes(a: real, b: real)
    requires b != 0.0
    ensures Times(a / b, b) == a
  {
  }
}
