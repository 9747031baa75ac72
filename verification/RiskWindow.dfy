/** The rolling return window and its tail measures (internal/risk/engine.go, lines 191-238). */
module RiskWindow {
  import opened RealMath
  import opened OrderStatistics
  import opened Buffers

  const WINDOW_CAP: nat := 256
  const MIN_SAMPLE: nat := 8

  /** An equity observation handed to the window. */
  datatype Push = Push(prevEquity: real, newEquity: real)

  /** The relative change of equity over an observation. */
  function ReturnOf(p: Push): real
    requires p.prevEquity > 0.0
  {
    p.newEquity / p.prevEquity - 1.0
  }

  /** The returns of the observations the window takes: those from a positive equity. */
  function Accepted(pushes: seq<Push>): seq<real> {
    if pushes == [] then []
    else
      var p := pushes[|pushes| - 1];
      Accepted(pushes[..|pushes| - 1]) + if p.prevEquity <= 0.0 then [] else [ReturnOf(p)]
  }

  /** Smallest integer not below `x`. */
  function Ceil(x: real): (c: int)
    ensures c as real - 1.0 < x <= c as real
  {
    -(-x).Floor
  }

  /** The count `budget` rounded up, less one, forced into the window. */
  function Rank(budget: real, n: nat): (idx: nat)
    requires n > 0
    ensures idx < n
    ensures budget > 0.0 ==> idx as real < budget
    ensures budget <= n as real ==> budget <= idx as real + 1.0
  {
    var i := Ceil(budget) - 1;
    if i < 0 then 0 else if i >= n then n - 1 else i
  }

  /** The tail's share of the sample: alpha*n. */
  function Budget(n: nat, confidence: real): real {
    (1.0 - confidence) * n as real
  }

  /** Position in the ascending window of the return whose loss is the value at risk. */
  function TailIndex(n: nat, confidence: real): (idx: nat)
    requires n > 0
    ensures idx < n
  {
    Rank(Budget(n, confidence), n)
  }

  function VaR(w: seq<real>, confidence: real): real
    requires w != []
  {
    -SortAscending(w)[TailIndex(|w|, confidence)]
  }

  /** Mean loss of the worst entries, down to the one that sets the value at risk. */
  function CVaR(w: seq<real>, confidence: real): real
    requires w != []
  {
    -LeadingMean(SortAscending(w), TailIndex(|w|, confidence) + 1)
  }

  class Engine {
    var retWindow: seq<real>

    constructor ()
      ensures retWindow == []
    {
      retWindow := [];
    }

    /** Appends a return, dropping the oldest when the window is full. */
    method PushReturn(prevEquity: real, newEquity: real)
      requires |retWindow| <= WINDOW_CAP
      modifies this
      ensures |retWindow| <= WINDOW_CAP
      ensures prevEquity <= 0.0 ==> retWindow == old(retWindow)
      ensures prevEquity > 0.0 ==> retWindow == LastOf(old(retWindow) + [newEquity / prevEquity - 1.0], 256)
    {
      if prevEquity <= 0.0 {
        return;
      }
      var r := newEquity / prevEquity - 1.0;
      if |retWindow| >= WINDOW_CAP {
        var i := 0;
        while i < |retWindow| - 1
          invariant i <= |retWindow| - 1 && |retWindow| == |old(retWindow)|
          invariant forall k :: 0 <= k < i ==> retWindow[k] == old(retWindow)[k + 1]
          invariant forall k :: i <= k < |retWindow| ==> retWindow[k] == old(retWindow)[k]
        {
          retWindow := retWindow[i := retWindow[i + 1]];
          i := i + 1;
        }
        retWindow := retWindow[..|retWindow| - 1];
        assert retWindow == old(retWindow)[1..];
      }
      retWindow := retWindow + [r];
    }

    /** Any sequence of observations, pushed one after the other onto an empty window. */
    method PushAll(pushes: seq<Push>)
      requires retWindow == []
      modifies this
      ensures retWindow == LastOf(Accepted(pushes), 256)
    {
      for k := 0 to |pushes|
        invariant retWindow == LastOf(Accepted(pushes[..k]), WINDOW_CAP)
      {
        PushReturn(pushes[k].prevEquity, pushes[k].newEquity);
        AcceptedOfMore(pushes, k);
      }
      assert pushes[..|pushes|] == pushes;
    }

    method VaRCVaR(confidence: real) returns (varAbs: real, cvarAbs: real, ok: bool)
      ensures ok <==> |retWindow| >= 8
      ensures ok ==> varAbs == VaR(retWindow, confidence) && cvarAbs == CVaR(retWindow, confidence)
      ensures !ok ==> varAbs == 0.0 && cvarAbs == 0.0
    {
      var n := |retWindow|;
      if n < MIN_SAMPLE {
        return 0.0, 0.0, false;
      }
      var cp := SortAscending(retWindow);
      var idx := TailPosition(n, confidence);
      varAbs := -cp[idx];
      cvarAbs := TailMean(cp, idx);
      return varAbs, cvarAbs, true;
    }
  }

  /** The tail's share of the sample, rounded up to a position. */
  method TailPosition(n: nat, confidence: real) returns (idx: nat)
    requires n > 0
    ensures idx == TailIndex(n, confidence) < n
  {
    var alpha := 1.0 - confidence;
    var i := Ceil(alpha * n as real) - 1;
    if i < 0 {
      i := 0;
    }
    if i >= n {
      i := n - 1;
    }
    return i;
  }

  /** The closing loop: mean loss of entries 0..idx. */
  method TailMean(cp: seq<real>, idx: nat) returns (cvarAbs: real)
    requires idx < |cp|
    ensures cvarAbs == -LeadingMean(cp, idx + 1)
  {
    cvarAbs := 0.0;
    var sum, count := 0.0, 0;
    for i := 0 to idx + 1
      invariant count == i && sum == -SumTo(cp, i)
    {
      sum := sum + -cp[i];
      count := count + 1;
    }
    if count > 0 {
      NegatedMean(SumTo(cp, idx + 1), count as real);
      cvarAbs := sum / count as real;
    }
  }

  lemma AcceptedOfMore(pushes: seq<Push>, k: nat)
    requires k < |pushes|
    ensures var before, after, p := Accepted(pushes[..k]), Accepted(pushes[..k + 1]), pushes[k];
            if p.prevEquity <= 0.0 then after == before
            else LastOf(after, 256) == LastOf(LastOf(before, 256) + [p.newEquity / p.prevEquity - 1.0], 256)
  {
    assert pushes[..k + 1][..k] == pushes[..k];
    if pushes[k].prevEquity > 0.0 {
      LastOfLast(Accepted(pushes[..k]), ReturnOf(pushes[k]), 256);
    }
  }

  // ---------- what the two measures mean ----------

  /** One and the return is the factor the equity grew by; no other number is. */
  lemma ReturnIsGrowth(p: Push, r: real)
    requires p.prevEquity > 0.0
    ensures (1.0 + r) * p.prevEquity == p.newEquity <==> r == ReturnOf(p)
  {
    var q := p.newEquity / p.prevEquity;
    assert 1.0 + ReturnOf(p) == q && q * p.prevEquity == p.newEquity;
    SignOfProduct(1.0 + r - q, p.prevEquity, (1.0 + r) * p.prevEquity - p.newEquity);
    SignOfProduct(q - (1.0 + r), p.prevEquity, p.newEquity - (1.0 + r) * p.prevEquity);
  }

  /** `growth` is by how much the equity grows over an observation that starts from a positive one. */
  ghost predicate IsGrowth(growth: Push -> real) {
    forall p: Push :: p.prevEquity > 0.0 ==> (1.0 + growth(p)) * p.prevEquity == p.newEquity
  }

  ghost function Fed(pushes: seq<Push>, growth: Push -> real): seq<real> {
    if pushes == [] then []
    else
      var p := pushes[|pushes| - 1];
      Fed(pushes[..|pushes| - 1], growth) + if p.prevEquity > 0.0 then [growth(p)] else []
  }

  lemma GrowthOf(growth: Push -> real, p: Push)
    requires IsGrowth(growth) && p.prevEquity > 0.0
    ensures growth(p) == ReturnOf(p)
  {
    ReturnIsGrowth(p, growth(p));
  }

  lemma {:induction false} AcceptedIsFed(pushes: seq<Push>, growth: Push -> real)
    requires IsGrowth(growth)
    ensures Accepted(pushes) == Fed(pushes, growth)
  {
    if pushes != [] {
      AcceptedIsFed(pushes[..|pushes| - 1], growth);
      if pushes[|pushes| - 1].prevEquity > 0.0 {
        GrowthOf(growth, pushes[|pushes| - 1]);
      }
    }
  }

  ghost predicate Rising(at: seq<nat>) {
    forall i, j :: 0 <= i < j < |at| ==> at[i] < at[j]
  }

  ghost predicate ReturnsAt(pushes: seq<Push>, growth: Push -> real, at: seq<nat>, rs: seq<real>) {
    && |at| == |rs|
    && forall i :: 0 <= i < |at| ==>
         at[i] < |pushes| && pushes[at[i]].prevEquity > 0.0 && rs[i] == growth(pushes[at[i]])
  }

  ghost predicate NoneMissing(pushes: seq<Push>, at: seq<nat>) {
    forall k :: 0 <= k < |pushes| && pushes[k].prevEquity > 0.0 ==> k in at
  }

  /** The window is fed the returns of the observations from a positive equity, one for each and in their order. */
  lemma AcceptedReturns(pushes: seq<Push>, growth: Push -> real) returns (at: seq<nat>)
    requires IsGrowth(growth)
    ensures ReturnsAt(pushes, growth, at, Accepted(pushes)) && Rising(at) && NoneMissing(pushes, at)
  {
    AcceptedIsFed(pushes, growth);
    at := FedReturns(pushes, growth);
  }

  lemma {:induction false} FedReturns(pushes: seq<Push>, growth: Push -> real) returns (at: seq<nat>)
    ensures ReturnsAt(pushes, growth, at, Fed(pushes, growth)) && Rising(at) && NoneMissing(pushes, at)
  {
    at := [];
    if pushes != [] {
      var n := |pushes| - 1;
      at := FedReturns(pushes[..n], growth);
      at := OneMoreReturn(pushes, growth, at, Fed(pushes[..n], growth));
    }
  }

  /** The last observation adds its return, if it is taken. */
  lemma OneMoreReturn(pushes: seq<Push>, growth: Push -> real, at: seq<nat>, rs: seq<real>) returns (after: seq<nat>)
    requires pushes != [] && ReturnsAt(pushes[..|pushes| - 1], growth, at, rs)
    requires Rising(at) && NoneMissing(pushes[..|pushes| - 1], at)
    ensures var p := pushes[|pushes| - 1];
            ReturnsAt(pushes, growth, after, rs + if p.prevEquity > 0.0 then [growth(p)] else [])
    ensures Rising(after) && NoneMissing(pushes, after)
  {
    var n := |pushes| - 1;
    after := if pushes[n].prevEquity > 0.0 then at + [n] else at;
    StillNoneMissing(pushes, at, after);
    StillReturns(pushes, growth, at, rs);
    if pushes[n].prevEquity > 0.0 {
      StillRising(at, n);
      TakesReturn(pushes, growth, at, rs);
    } else {
      assert rs + [] == rs;
    }
  }

  lemma StillReturns(pushes: seq<Push>, growth: Push -> real, at: seq<nat>, rs: seq<real>)
    requires pushes != [] && ReturnsAt(pushes[..|pushes| - 1], growth, at, rs)
    ensures ReturnsAt(pushes, growth, at, rs) && forall i :: 0 <= i < |at| ==> at[i] < |pushes| - 1
  {
  }

  lemma StillRising(at: seq<nat>, n: nat)
    requires Rising(at) && forall i :: 0 <= i < |at| ==> at[i] < n
    ensures Rising(at + [n])
  {
  }

  lemma TakesReturn(pushes: seq<Push>, growth: Push -> real, at: seq<nat>, rs: seq<real>)
    requires pushes != [] && pushes[|pushes| - 1].prevEquity > 0.0 && ReturnsAt(pushes, growth, at, rs)
    ensures ReturnsAt(pushes, growth, at + [|pushes| - 1], rs + [growth(pushes[|pushes| - 1])])
  {
  }

  lemma StillNoneMissing(pushes: seq<Push>, at: seq<nat>, after: seq<nat>)
    requires pushes != [] && NoneMissing(pushes[..|pushes| - 1], at)
    requires after == if pushes[|pushes| - 1].prevEquity > 0.0 then at + [|pushes| - 1] else at
    ensures NoneMissing(pushes, after)
  {
    forall k | 0 <= k < |pushes| && pushes[k].prevEquity > 0.0
      ensures k in after
    {
      if k < |pushes| - 1 {
        assert pushes[..|pushes| - 1][k].prevEquity > 0.0;
        assert k in at;
      }
    }
  }

  /** The tail's size: the smallest number of returns that makes up the tail's share, but at least one, at most all. */
  lemma TailSizeExactly(n: nat, confidence: real, m: int)
    requires n > 0 && m == TailIndex(n, confidence) + 1
    ensures 1 <= m <= n
    ensures 0.0 <= confidence < 1.0 ==> (m - 1) as real < (1.0 - confidence) * n as real <= m as real
    ensures confidence >= 1.0 ==> m == 1
    ensures confidence < 0.0 ==> m == n
  {
    BudgetRange(n, confidence);
    RankBySize(Budget(n, confidence), n);
  }

  lemma RankBySize(budget: real, n: nat)
    requires n > 0
    ensures budget <= 0.0 ==> Rank(budget, n) == 0
    ensures budget > n as real ==> Rank(budget, n) == n - 1
  {
  }

  /** Expected shortfall is at least the mean loss of every sub-multiset of its size. */
  lemma CVaRIsWorstMeanLoss(w: seq<real>, confidence: real, tail: seq<real>)
    requires w != []
    requires multiset(tail) <= multiset(w) && |tail| == TailIndex(|w|, confidence) + 1
    ensures -LeadingMean(tail, |tail|) <= CVaR(w, confidence)
  {
    SmallestMeanIsLeast(SortAscending(w), tail);
  }

  /** And it is the mean loss of one such sub-multiset. */
  lemma CVaRIsReached(w: seq<real>, confidence: real, m: nat) returns (worst: seq<real>)
    requires w != [] && m == TailIndex(|w|, confidence) + 1
    ensures multiset(worst) <= multiset(w) && |worst| == m
    ensures -LeadingMean(worst, m) == CVaR(w, confidence)
  {
    var s := SortAscending(w);
    worst := s[..m];
    PrefixIsPart(s, m);
    SumToPrefix(worst, s, m);
    SameLeadingMean(worst, s, m);
  }

  lemma SameLeadingMean(s: seq<real>, t: seq<real>, m: nat)
    requires 0 < m <= |s| && m <= |t| && SumTo(s, m) == SumTo(t, m)
    ensures LeadingMean(s, m) == LeadingMean(t, m)
  {
  }

  lemma PrefixIsPart(s: seq<real>, m: nat)
    requires m <= |s|
    ensures multiset(s[..m]) <= multiset(s)
  {
    assert s == s[..m] + s[m..];
  }

  lemma SmallestMeanIsLeast(s: seq<real>, t: seq<real>)
    requires Ascending(s) && t != [] && multiset(t) <= multiset(s)
    ensures |t| <= |s| && LeadingMean(s, |t|) <= LeadingMean(t, |t|)
  {
    SmallestSumIsLeast(s, t);
    QuotientOrder(SumTo(s, |t|), Sum(t), |t| as real);
  }

  lemma QuotientOrder(a: real, b: real, k: real)
    requires k > 0.0 && a <= b
    ensures a / k <= b / k
  {
    var p, q := a / k, b / k;
    if q < p {
      ProductPositive(p - q, k, (p - q) * k);
    }
  }

  lemma NegatedMean(sum: real, k: real)
    requires k > 0.0
    ensures -sum / k == -(sum / k)
  {
  }

  lemma MeanAtMost(sum: real, last: real, k: real)
    requires k > 0.0 && sum <= k * last
    ensures sum / k <= last
  {
    var p := sum / k;
    if p > last {
      ProductPositive(p - last, k, (p - last) * k);
    }
  }

  lemma CVaRAtLeastVaR(w: seq<real>, confidence: real)
    requires w != []
    ensures CVaR(w, confidence) >= VaR(w, confidence)
  {
    MeanAtMostLast(SortAscending(w), TailIndex(|w|, confidence) + 1);
  }

  lemma MeanAtMostLast(s: seq<real>, m: nat)
    requires Ascending(s) && 0 < m <= |s|
    ensures LeadingMean(s, m) <= s[m - 1]
  {
    LeadingMeanAtMostLast(s, m);
    MeanAtMost(SumTo(s, m), s[m - 1], m as real);
  }

  lemma RankRises(small: real, large: real, n: nat)
    requires n > 0 && small <= large
    ensures Rank(small, n) <= Rank(large, n)
  {
  }

  lemma BudgetShrinksWithConfidence(n: nat, low: real, high: real)
    requires low <= high
    ensures Budget(n, high) <= Budget(n, low)
  {
    ScaleBound(n as real, 1.0 - high, 1.0 - low);
  }

  lemma TailShrinksWithConfidence(n: nat, low: real, high: real)
    requires n > 0 && low <= high
    ensures TailIndex(n, high) <= TailIndex(n, low)
  {
    var b, b' := Budget(n, high), Budget(n, low);
    assert b <= b' by {
      BudgetShrinksWithConfidence(n, low, high);
    }
    RankRises(b, b', n);
  }

  /** Higher confidence never lowers either measure. */
  lemma MeasuresRiseWithConfidence(w: seq<real>, low: real, high: real)
    requires w != [] && low <= high
    ensures VaR(w, low) <= VaR(w, high) && CVaR(w, low) <= CVaR(w, high)
  {
    TailShrinksWithConfidence(|w|, low, high);
    LeadingMeansRise(SortAscending(w), TailIndex(|w|, high) + 1, TailIndex(|w|, low) + 1);
  }

  /**
   Exceedances. Returns worse than the value at risk number fewer than alpha*n exactly when confidence is below 1,
   and returns at least that bad number at least alpha*n exactly when confidence is not negative.
   */
  lemma Exceedances(w: seq<real>, confidence: real) returns (v: real)
    requires w != []
    ensures v == -VaR(w, confidence)
    ensures CountBelow(w, v) as real < Budget(|w|, confidence) <==> confidence < 1.0
    ensures CountAtMost(w, v) as real >= Budget(|w|, confidence) <==> confidence >= 0.0
  {
    var budget := Budget(|w|, confidence);
    v := CountsAtVaR(w, confidence);
    var below, atMost := CountBelow(w, v), CountAtMost(w, v);
    assert (below as real < budget <==> budget > 0.0) && (atMost as real >= budget <==> budget <= |w| as real) by {
      RankBrackets(below, atMost, |w|, budget);
    }
    BudgetRange(|w|, confidence);
  }

  lemma BudgetRange(n: nat, confidence: real)
    requires n > 0
    ensures Budget(n, confidence) > 0.0 <==> confidence < 1.0
    ensures Budget(n, confidence) <= n as real <==> confidence >= 0.0
  {
    BudgetSize(1.0 - confidence, n as real, Budget(n, confidence));
  }

  lemma RankBrackets(below: nat, atMost: nat, n: nat, budget: real)
    requires n > 0 && below <= Rank(budget, n) < atMost <= n
    ensures below as real < budget <==> budget > 0.0
    ensures atMost as real >= budget <==> budget <= n as real
  {
  }

  lemma CountsAtVaR(w: seq<real>, confidence: real) returns (v: real)
    requires w != []
    ensures v == -VaR(w, confidence)
    ensures CountBelow(w, v) <= TailIndex(|w|, confidence) < CountAtMost(w, v) <= |w|
  {
    var s, idx := SortAscending(w), TailIndex(|w|, confidence);
    v := s[idx];
    SortingKeepsCounts(w, v);
    CountsAtRank(s, idx, v);
    CountsAreBounded(s, v);
  }

  lemma BudgetSize(alpha: real, n: real, budget: real)
    requires n > 0.0 && budget == alpha * n
    ensures budget > 0.0 <==> alpha > 0.0
    ensures budget <= n <==> alpha <= 1.0
  {
    if alpha > 0.0 {
      ProductPositive(alpha, n, budget);
    } else if alpha < 0.0 {
      ProductPositive(-alpha, n, -budget);
    }
    if alpha > 1.0 {
      ProductPositive(alpha - 1.0, n, (alpha - 1.0) * n);
    } else if alpha < 1.0 {
      ProductPositive(1.0 - alpha, n, (1.0 - alpha) * n);
    }
  }
}
