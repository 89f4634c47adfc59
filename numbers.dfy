// Numeric helpers shared by the backend (Python) and frontend (TypeScript)
// models: sums over sequences, and the rounding and remainder operators of
// the two source languages, written out over exact reals and integers.

module Numbers {

  /** Sum of a sequence of reals, peeled from the end so that prefix sums unfold one step at a time. */
  function Sum(s: seq<real>): real
  {
    if |s| == 0 then 0.0 else Sum(s[..|s| - 1]) + s[|s| - 1]
  }

  /** Sum of a sequence of integers (Python's sum over int stop times). */
  function IntSum(s: seq<int>): int
  {
    if |s| == 0 then 0 else IntSum(s[..|s| - 1]) + s[|s| - 1]
  }

  lemma {:induction false} SumConcat(a: seq<real>, b: seq<real>)
    ensures Sum(a + b) == Sum(a) + Sum(b)
    decreases |b|
  {
    if |b| == 0 {
      assert a + b == a;
    } else {
      assert (a + b)[..|a + b| - 1] == a + b[..|b| - 1];
      SumConcat(a, b[..|b| - 1]);
    }
  }

  /** The prefix sum of length i + 1 is the prefix sum of length i plus element i. */
  lemma SumPrefixStep(s: seq<real>, i: nat)
    requires i < |s|
    ensures Sum(s[..i + 1]) == Sum(s[..i]) + s[i]
  {
    assert s[..i + 1][..i] == s[..i];
  }

  /** Scaling every element scales the sum: the distributive law behind time conservation. */
  lemma {:induction false} SumScale(s: seq<real>, t: seq<real>, c: real)
    requires |s| == |t|
    requires forall i :: 0 <= i < |s| ==> t[i] == s[i] * c
    ensures Sum(t) == Sum(s) * c
    decreases |s|
  {
    if |s| > 0 {
      var n := |s| - 1;
      SumScale(s[..n], t[..n], c);
      calc {
        Sum(t);
        Sum(t[..n]) + t[n];
        Sum(s[..n]) * c + s[n] * c;
        (Sum(s[..n]) + s[n]) * c;
      }
    }
  }

  /** Element-wise addition adds the sums. */
  lemma {:induction false} SumAdd(a: seq<real>, b: seq<real>, t: seq<real>)
    requires |a| == |b| == |t|
    requires forall i :: 0 <= i < |a| ==> t[i] == a[i] + b[i]
    ensures Sum(t) == Sum(a) + Sum(b)
    decreases |a|
  {
    if |a| > 0 {
      var n := |a| - 1;
      SumAdd(a[..n], b[..n], t[..n]);
    }
  }

  /** A sum of non-negative terms is non-negative. */
  lemma {:induction false} SumNonNegative(s: seq<real>)
    requires forall i :: 0 <= i < |s| ==> s[i] >= 0.0
    ensures Sum(s) >= 0.0
    decreases |s|
  {
    if |s| > 0 {
      SumNonNegative(s[..|s| - 1]);
    }
  }

  /** The integer sum, seen as a real, is the real sum of the converted terms. */
  lemma {:induction false} IntSumAsReal(s: seq<int>, r: seq<real>)
    requires |s| == |r|
    requires forall i :: 0 <= i < |s| ==> r[i] == s[i] as real
    ensures IntSum(s) as real == Sum(r)
    decreases |s|
  {
    if |s| > 0 {
      IntSumAsReal(s[..|s| - 1], r[..|r| - 1]);
    }
  }

  /** Python int(x) and JavaScript Math.trunc: truncation toward zero. */
  function Trunc(x: real): (r: int)
    ensures x >= 0.0 ==> r as real <= x < r as real + 1.0
    ensures x < 0.0 ==> r as real - 1.0 < x <= r as real
  {
    if x >= 0.0 then x.Floor else -((-x).Floor)
  }

  /** JavaScript Math.round: the nearest integer, halves rounded up toward +infinity. */
  function JsRound(x: real): (r: int)
    ensures x - 0.5 < r as real <= x + 0.5
  {
    (x + 0.5).Floor
  }

  /** A real with no fractional part. */
  predicate IsWhole(v: real)
  {
    v.Floor as real == v
  }

  /** Python float x % 60: the remainder takes the sign of the divisor, so it lies in [0, 60). */
  function PyMod60(x: real): (r: real)
    ensures 0.0 <= r < 60.0
    ensures IsWhole((x - r) / 60.0)
  {
    var q := (x / 60.0).Floor;
    assert x == 60.0 * q as real + (x - 60.0 * q as real);
    x - 60.0 * q as real
  }

  /** Python float x % 1: the fractional part above the floor, in [0, 1). */
  function PyMod1(x: real): (r: real)
    ensures 0.0 <= r < 1.0
    ensures IsWhole(x - r)
  {
    x - x.Floor as real
  }

  /** JavaScript x % 60: the remainder takes the sign of the dividend. */
  function JsRem60(x: real): (r: real)
    ensures x >= 0.0 ==> 0.0 <= r < 60.0
    ensures x < 0.0 ==> -60.0 < r <= 0.0
    ensures IsWhole((x - r) / 60.0)
  {
    var q := Trunc(x / 60.0);
    assert x == 60.0 * q as real + (x - 60.0 * q as real);
    x - 60.0 * q as real
  }

  /** JavaScript x % 1: the fractional part toward zero, with the sign of x. */
  function JsRem1(x: real): (r: real)
    ensures x >= 0.0 ==> 0.0 <= r < 1.0
    ensures x < 0.0 ==> -1.0 < r <= 0.0
    ensures IsWhole(x - r)
  {
    x - Trunc(x) as real
  }

  /** JavaScript % on integers (truncated remainder). */
  function JsIntRem(x: int, y: int): (r: int)
    requires y > 0
    ensures x >= 0 ==> r == x % y
    ensures x < 0 ==> r == -((-x) % y)
  {
    if x >= 0 then x % y else -((-x) % y)
  }

  /** A part of a positive whole, divided by the whole, lies in [0, 1]. */
  lemma UnitRatio(part: real, whole: real)
    requires whole > 0.0 && 0.0 <= part <= whole
    ensures 0.0 <= part / whole <= 1.0
    ensures part / whole == 1.0 <==> part == whole
  {
    var r := part / whole;
    assert r * whole == part;
    assert r < 0.0 ==> (-r) * whole > 0.0;
    assert r > 1.0 ==> (r - 1.0) * whole > 0.0;
  }

  function Min(a: int, b: int): int { if a <= b then a else b }
}
