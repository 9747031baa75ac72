/** Inverse-variance portfolio weights (internal/strategy/allocator.go, lines 12-42). */
module Allocator {
  import opened RealMath

  /** Variances at or below this floor get no weight. */
  const VARIANCE_FLOOR := 1e-12

  function Inverse(v: real): real {
    if v <= VARIANCE_FLOOR then 0.0 else 1.0 / v
  }

  function Contributions(w: seq<real>, v: seq<real>): (r: seq<real>)
    requires |w| == |v|
    ensures |r| == |w|
  {
    seq(|w|, i requires 0 <= i < |w| => w[i] * w[i] * v[i])
  }

  /** Sum of w[i]^2 * v[i]: the variance of the portfolio when the assets are uncorrelated. */
  function PortfolioVariance(w: seq<real>, v: seq<real>): real
    requires |w| == |v|
  {
    Sum(Contributions(w, v))
  }

  ghost predicate Supported(w: seq<real>, v: seq<real>) {
    |w| == |v| && forall i :: 0 <= i < |w| && v[i] <= VARIANCE_FLOOR ==> w[i] == 0.0
  }

  function InversesOf(v: seq<real>): (r: seq<real>)
    ensures |r| == |v|
  {
    seq(|v|, i requires 0 <= i < |v| => Inverse(v[i]))
  }

  /** Each entry of `w` is that of `u` divided by `s`. */
  ghost predicate Divided(w: seq<real>, u: seq<real>, s: real) {
    |w| == |u| && forall i :: 0 <= i < |w| ==> w[i] * s == u[i]
  }

  function Ones(n: nat): (r: seq<real>)
    ensures |r| == n
  {
    seq(n, i => 1.0)
  }

  /** What the weights must be: proportional to inverse variance, or equal when no variance clears the floor. */
  ghost predicate IsInverseVariance(w: seq<real>, v: seq<real>) {
    if Sum(InversesOf(v)) <= 0.0 then Divided(w, Ones(|v|), |v| as real)
    else Divided(w, InversesOf(v), Sum(InversesOf(v)))
  }

  method HRPWeights(v: seq<real>) returns (out: array?<real>)
    ensures out == null <==> v == []
    ensures out != null ==> IsInverseVariance(out[..], v)
  {
    var n := |v|;
    if n == 0 {
      return null;
    }
    var invVar := FillInverses(v);
    var sum := 0.0;
    for i := 0 to n
      invariant sum == SumTo(invVar[..], i)
    {
      sum := sum + invVar[i];
    }
    if sum <= 0.0 {
      out := EqualWeights(n);
      return;
    }
    Normalise(invVar, sum);
    return invVar;
  }

  /** The first loop. */
  method FillInverses(v: seq<real>) returns (invVar: array<real>)
    ensures fresh(invVar) && invVar[..] == InversesOf(v)
  {
    var n := |v|;
    invVar := new real[n];
    for i := 0 to n
      invariant forall k :: 0 <= k < i ==> invVar[k] == Inverse(v[k])
    {
      if v[i] <= VARIANCE_FLOOR {
        invVar[i] := 0.0;
      } else {
        invVar[i] := 1.0 / v[i];
      }
    }
  }

  method EqualWeights(n: nat) returns (out: array<real>)
    requires n > 0
    ensures fresh(out) && out.Length == n
    ensures Divided(out[..], Ones(n), n as real)
  {
    var w := 1.0 / n as real;
    out := new real[n];
    for i := 0 to n
      invariant forall k :: 0 <= k < i ==> out[k] == w
    {
      out[i] := w;
    }
  }

  /** The closing loop: divide every entry by the total, in place. */
  method Normalise(a: array<real>, sum: real)
    requires sum > 0.0
    modifies a
    ensures Divided(a[..], old(a[..]), sum)
  {
    for i := 0 to a.Length
      invariant forall k :: 0 <= k < i ==> a[k] * sum == old(a[k])
      invariant forall k :: i <= k < a.Length ==> a[k] == old(a[k])
    {
      a[i] := a[i] / sum;
    }
  }

  lemma {:induction false} InversesSum(v: seq<real>, n: nat)
    requires n <= |v|
    ensures SumTo(InversesOf(v), n) >= 0.0
    ensures SumTo(InversesOf(v), n) > 0.0 <==> exists i :: 0 <= i < n && v[i] > VARIANCE_FLOOR
  {
    if n > 0 {
      InversesSum(v, n - 1);
    }
  }

  /** If every entry times `s` is the entry of `u`, the sums are related the same way. */
  lemma {:induction false} ScaledSum(w: seq<real>, u: seq<real>, s: real, n: nat)
    requires n <= |w| == |u|
    requires forall i :: 0 <= i < n ==> w[i] * s == u[i]
    ensures SumTo(w, n) * s == SumTo(u, n)
  {
    if n > 0 {
      ScaledSum(w, u, s, n - 1);
      assert SumTo(w, n) * s == SumTo(w, n - 1) * s + w[n - 1] * s;
    }
  }

  /** Dividing non-negative numbers by their positive total. */
  lemma NormalisedIsConvex(w: seq<real>, u: seq<real>, s: real)
    requires Divided(w, u, s) && s > 0.0 && s == Sum(u)
    requires forall i :: 0 <= i < |w| ==> u[i] >= 0.0
    ensures Sum(w) == 1.0
    ensures forall i :: 0 <= i < |w| ==> w[i] >= 0.0
  {
    ScaledSum(w, u, s, |w|);
    UnitQuotient(Sum(w), s);
    forall i | 0 <= i < |w| ensures w[i] >= 0.0 {
      NonNegativeQuotient(w[i], s, u[i]);
    }
  }

  lemma NonNegativeQuotient(w: real, s: real, u: real)
    requires s > 0.0 && u >= 0.0 && w * s == u
    ensures w >= 0.0
  {
    if w < 0.0 {
      ProductPositive(-w, s, -u);
    }
  }

  lemma UnitQuotient(w: real, s: real)
    requires s > 0.0 && w * s == s
    ensures w == 1.0
  {
    assert w == (w * s) / s;
  }

  /** The weights are non-negative and add up to one, whatever the variances. */
  lemma WeightsAreConvex(w: seq<real>, v: seq<real>)
    requires v != [] && IsInverseVariance(w, v)
    ensures Sum(w) == 1.0
    ensures forall i :: 0 <= i < |w| ==> w[i] >= 0.0
  {
    InversesSum(v, |v|);
    if Sum(InversesOf(v)) <= 0.0 {
      ConstantSum(Ones(|v|), 1.0, |v|);
      NormalisedIsConvex(w, Ones(|v|), |v| as real);
    } else {
      NormalisedIsConvex(w, InversesOf(v), Sum(InversesOf(v)));
    }
  }

  /** How far one asset's contribution lies above its tangent at the weight k/v. */
  function Excess(w: real, v: real, k: real): real {
    w * w * v - 2.0 * k * w + k * k * Inverse(v)
  }

  lemma ExcessIsSquare(w: real, v: real, k: real)
    requires v <= VARIANCE_FLOOR ==> w == 0.0
    ensures Excess(w, v, k) >= 0.0
    ensures Excess(w, v, k) == 0.0 <==> w == k * Inverse(v)
  {
    if v > VARIANCE_FLOOR {
      var u := Inverse(v);
      ReciprocalProduct(v);
      var d, r := w - k * u, v * ((w - k * u) * (w - k * u));
      ScaledSquare(v, d, r);
      assert r == w * w * v - 2.0 * k * w * (u * v) + k * k * u * (u * v);
    }
  }

  lemma ReciprocalProduct(v: real)
    requires v > VARIANCE_FLOOR
    ensures Inverse(v) * v == 1.0
  {
  }

  /**
   When some variance clears the floor, the weights give the least variance of all weights that add up to one
   and put nothing on the assets below the floor, and no other such weights do as well.
   */
  lemma WeightsMinimiseVariance(w: seq<real>, v: seq<real>, z: seq<real>)
    requires IsInverseVariance(w, v) && (exists i :: 0 <= i < |v| && v[i] > VARIANCE_FLOOR)
    requires Supported(z, v) && Sum(z) == 1.0
    ensures Supported(w, v)
    ensures PortfolioVariance(w, v) <= PortfolioVariance(z, v)
    ensures PortfolioVariance(w, v) == PortfolioVariance(z, v) <==> z == w
  {
    var s := Sum(InversesOf(v));
    InversesSum(v, |v|);
    WeightsAreConvex(w, v);
    var k := 1.0 / s;
    forall i | 0 <= i < |w|
      ensures w[i] == k * Inverse(v[i])
    {
      QuotientIsMultiple(w[i], s, k, Inverse(v[i]));
    }
    var dw := TotalExcess(w, v, k);
    var dz := TotalExcess(z, v, k);
    if dz == 0.0 {
      assert z == w;
    }
  }

  lemma QuotientIsMultiple(w: real, s: real, k: real, u: real)
    requires s > 0.0 && w * s == u && k * s == 1.0
    ensures w == k * u
  {
    assert k * u == w * (k * s);
  }

  function Excesses(w: seq<real>, v: seq<real>, k: real): (r: seq<real>)
    requires |w| == |v|
    ensures |r| == |w|
  {
    seq(|w|, i requires 0 <= i < |w| => Excess(w[i], v[i], k))
  }

  lemma ExcessIsLinear(w: real, v: real, k: real, u: real, c: real, q: Quadratic)
    requires u == Inverse(v) && c == w * w * v && q == Quadratic(0.0, -2.0 * k, k * k, 0.0, 0.0)
    ensures Excess(w, v, k) == q.At(1.0, w, u, c, c, c)
  {
  }

  lemma ExcessesSum(w: seq<real>, v: seq<real>, k: real)
    requires |w| == |v|
    ensures Sum(Excesses(w, v, k)) == PortfolioVariance(w, v) - 2.0 * k * Sum(w) + k * k * Sum(InversesOf(v))
  {
    var e, u, c := Excesses(w, v, k), InversesOf(v), Contributions(w, v);
    var q := Quadratic(0.0, -2.0 * k, k * k, 0.0, 0.0);
    assert Sum(e) == q.At(|w| as real, Sum(w), Sum(u), Sum(c), Sum(c), Sum(c)) by {
      forall i | 0 <= i < |w|
        ensures e[i] == q.At(1.0, w[i], u[i], c[i], c[i], c[i])
      {
        ExcessIsLinear(w[i], v[i], k, u[i], c[i], q);
      }
      SumIsLinear(e, w, u, c, c, c, q, |w|);
    }
  }

  /** The excesses add up to the variance, less something that does not depend on the weights. */
  lemma TotalExcess(w: seq<real>, v: seq<real>, k: real) returns (d: real)
    requires Supported(w, v) && Sum(w) == 1.0
    ensures d == PortfolioVariance(w, v) - 2.0 * k + k * k * Sum(InversesOf(v))
    ensures d >= 0.0
    ensures d == 0.0 <==> forall i :: 0 <= i < |w| ==> w[i] == k * Inverse(v[i])
  {
    var e := Excesses(w, v, k);
    forall i | 0 <= i < |w|
      ensures e[i] >= 0.0 && (e[i] == 0.0 <==> w[i] == k * Inverse(v[i]))
    {
      ExcessIsSquare(w[i], v[i], k);
    }
    NonNegativeSum(e, |e|);
    d := Sum(e);
    ExcessesSum(w, v, k);
  }

  /**
   What the weights are: nothing for a variance at or below 1e-12 and the same product of weight and variance for the
   others; or, when there are no others, the same for all.
   */
  lemma WeightsExactly(w: seq<real>, v: seq<real>, i: nat, j: nat)
    requires IsInverseVariance(w, v) && i < |v| && j < |v|
    ensures |w| == |v|
    ensures (forall k :: 0 <= k < |v| ==> v[k] <= 0.000000000001) ==> w[i] * |v| as real == 1.0
    ensures v[i] <= 0.000000000001 < v[j] ==> w[i] == 0.0 && w[j] > 0.0
    ensures v[i] > 0.000000000001 && v[j] > 0.000000000001 ==> w[i] * v[i] == w[j] * v[j]
  {
    InversesSum(v, |v|);
    if Sum(InversesOf(v)) > 0.0 {
      SharesOfTotal(w[i], v[i], w[j], v[j], Sum(InversesOf(v)));
    }
  }

  lemma SharesOfTotal(wi: real, vi: real, wj: real, vj: real, s: real)
    requires s > 0.0 && wi * s == Inverse(vi) && wj * s == Inverse(vj)
    ensures vi <= 0.000000000001 ==> wi == 0.0
    ensures vj > 0.000000000001 ==> wj > 0.0
    ensures vi > 0.000000000001 && vj > 0.000000000001 ==> wi * vi == wj * vj
  {
    SignOfProduct(wi, s, Inverse(vi));
    SignOfProduct(wj, s, Inverse(vj));
    if vj > VARIANCE_FLOOR {
      ReciprocalProduct(vj);
      ShareTimesVariance(wj, vj, s, Inverse(vj));
    }
    if vi > VARIANCE_FLOOR && vj > VARIANCE_FLOOR {
      ReciprocalProduct(vi);
      ShareTimesVariance(wi, vi, s, Inverse(vi));
      EqualShares(wi * vi, wj * vj, s);
    }
  }

  lemma ShareTimesVariance(w: real, v: real, s: real, u: real)
    requires w * s == u && u * v == 1.0 && v > 0.0
    ensures (w * v) * s == 1.0 && u > 0.0
  {
    assert (w * v) * s == (w * s) * v;
    if u <= 0.0 {
      ScaleBound(v, u, 0.0);
    }
  }

  lemma EqualShares(a: real, b: real, s: real)
    requires s > 0.0 && a * s == 1.0 && b * s == 1.0
    ensures a == b
  {
    SignOfProduct(a - b, s, (a - b) * s);
    SignOfProduct(b - a, s, (b - a) * s);
  }
}
