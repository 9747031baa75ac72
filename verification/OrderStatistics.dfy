/** Sorting and order statistics over exact reals. */
module OrderStatistics {
  import opened RealMath

  predicate Ascending(s: seq<real>) {
    forall i, j :: 0 <= i <= j < |s| ==> s[i] <= s[j]
  }

  function Insert(x: real, s: seq<real>): (r: seq<real>)
    requires Ascending(s)
    ensures Ascending(r) && |r| == |s| + 1 && multiset(r) == multiset(s) + multiset{x}
  {
    if s == [] || x <= s[0] then [x] + s
    else
      var r := Insert(x, s[1..]);
      HeadStaysFirst(x, s, r);
      [s[0]] + r
  }

  /** An entry above the head goes into the tail, and the head stays below all of it. */
  lemma HeadStaysFirst(x: real, s: seq<real>, r: seq<real>)
    requires Ascending(s) && s != [] && x > s[0]
    requires Ascending(r) && multiset(r) == multiset(s[1..]) + multiset{x}
    ensures Ascending([s[0]] + r) && multiset([s[0]] + r) == multiset(s) + multiset{x}
  {
    assert s == [s[0]] + s[1..];
    forall i | 0 <= i < |r| ensures s[0] <= r[i] {
      assert r[i] in multiset(r);
      assert r[i] == x || r[i] in s[1..];
    }
  }

  /** The ascending permutation of a sample. */
  function SortAscending(s: seq<real>): (r: seq<real>)
    ensures Ascending(r) && |r| == |s| && multiset(r) == multiset(s)
  {
    if s == [] then []
    else
      assert s == [s[0]] + s[1..];
      Insert(s[0], SortAscending(s[1..]))
  }

  /** How many entries are below `v`, and how many are at most `v`. */
  function CountBelow(s: seq<real>, v: real): nat {
    if s == [] then 0 else CountBelow(s[1..], v) + if s[0] < v then 1 else 0
  }

  function CountAtMost(s: seq<real>, v: real): nat {
    if s == [] then 0 else CountAtMost(s[1..], v) + if s[0] <= v then 1 else 0
  }

  lemma {:induction false} InsertCounts(x: real, s: seq<real>, v: real)
    requires Ascending(s)
    ensures CountBelow(Insert(x, s), v) == CountBelow(s, v) + if x < v then 1 else 0
    ensures CountAtMost(Insert(x, s), v) == CountAtMost(s, v) + if x <= v then 1 else 0
  {
    if s == [] || x <= s[0] {
      assert ([x] + s)[1..] == s;
    } else {
      InsertCounts(x, s[1..], v);
      assert ([s[0]] + Insert(x, s[1..]))[1..] == Insert(x, s[1..]);
    }
  }

  lemma {:induction false} SortingKeepsCounts(s: seq<real>, v: real)
    ensures CountBelow(SortAscending(s), v) == CountBelow(s, v)
    ensures CountAtMost(SortAscending(s), v) == CountAtMost(s, v)
  {
    if s != [] {
      SortingKeepsCounts(s[1..], v);
      InsertCounts(s[0], SortAscending(s[1..]), v);
    }
  }

  lemma {:induction false} CountsAreBounded(s: seq<real>, v: real)
    ensures CountBelow(s, v) <= CountAtMost(s, v) <= |s|
  {
    if s != [] {
      CountsAreBounded(s[1..], v);
    }
  }

  /**
   In an ascending sample, entry `k` bounds the counts: at most `k` entries are below it, more than `k` are at most it.
   */
  lemma {:induction false} CountsAtRank(s: seq<real>, k: nat, v: real)
    requires Ascending(s) && k < |s|
    ensures v <= s[k] ==> CountBelow(s, v) <= k
    ensures v >= s[k] ==> CountAtMost(s, v) >= k + 1
  {
    if k == 0 {
      if v <= s[0] {
        NoneBelow(s, v);
      }
    } else {
      CountsAtRank(s[1..], k - 1, v);
    }
  }

  lemma {:induction false} NoneBelow(s: seq<real>, v: real)
    requires forall i :: 0 <= i < |s| ==> v <= s[i]
    ensures CountBelow(s, v) == 0
  {
    if s != [] {
      NoneBelow(s[1..], v);
    }
  }

  lemma {:induction false} SumFromHead(s: seq<real>, n: nat)
    requires 0 < n <= |s|
    ensures SumTo(s, n) == s[0] + SumTo(s[1..], n - 1)
  {
    if n > 1 {
      SumFromHead(s, n - 1);
    }
  }

  lemma {:induction false} SumWithout(t: seq<real>, j: nat)
    requires j < |t|
    ensures Sum(t) == t[j] + Sum(t[..j] + t[j + 1..])
  {
    if j == 0 {
      SumFromHead(t, |t|);
      assert t[..0] + t[1..] == t[1..];
    } else {
      SumWithout(t[1..], j - 1);
      SumFromHead(t, |t|);
      var r := t[..j] + t[j + 1..];
      SumFromHead(r, |r|);
      assert r[1..] == t[1..][..j - 1] + t[1..][j..];
    }
  }

  /** Shifting an ascending sample by one only raises its leading sums. */
  lemma {:induction false} LaterEntriesSumHigher(s: seq<real>, n: nat)
    requires Ascending(s) && n < |s|
    ensures SumTo(s, n) <= SumTo(s[1..], n)
  {
    if n > 0 {
      LaterEntriesSumHigher(s, n - 1);
    }
  }

  lemma RemoveOne(t: seq<real>, x: real) returns (r: seq<real>)
    requires x in t
    ensures multiset(t) == multiset(r) + multiset{x} && |t| == |r| + 1 && Sum(t) == x + Sum(r)
  {
    var j :| 0 <= j < |t| && t[j] == x;
    r := t[..j] + t[j + 1..];
    assert t == t[..j] + [t[j]] + t[j + 1..];
    SumWithout(t, j);
  }

  lemma CancelOne(a: multiset<real>, b: multiset<real>, x: real)
    requires a + multiset{x} <= b + multiset{x}
    ensures a <= b
  {
    forall y | y in a
      ensures a[y] <= b[y]
    {
      assert (a + multiset{x})[y] <= (b + multiset{x})[y];
    }
  }

  lemma HeadAndTail(s: seq<real>)
    requires s != []
    ensures multiset(s) == multiset{s[0]} + multiset(s[1..])
  {
    assert s == [s[0]] + s[1..];
  }

  /** No sub-multiset of a sample sums to less than equally many of the sample's smallest entries. */
  lemma {:induction false} SmallestSumIsLeast(s: seq<real>, t: seq<real>)
    requires Ascending(s) && multiset(t) <= multiset(s)
    ensures |t| <= |s| && SumTo(s, |t|) <= Sum(t)
    decreases |s|
  {
    if t != [] {
      assert t[0] in multiset(s);
      HeadAndTail(s);
      if s[0] in t {
        var r := RemoveOne(t, s[0]);
        CancelOne(multiset(r), multiset(s[1..]), s[0]);
        SmallestSumIsLeast(s[1..], r);
        SumFromHead(s, |t|);
      } else {
        assert multiset(t) <= multiset(s[1..]);
        SmallestSumIsLeast(s[1..], t);
        LaterEntriesSumHigher(s, |t|);
      }
    }
  }

  /** The mean of the first `n` entries. */
  function LeadingMean(s: seq<real>, n: nat): real
    requires 0 < n <= |s|
  {
    SumTo(s, n) / n as real
  }

  lemma {:induction false} LeadingMeanAtMostLast(s: seq<real>, n: nat)
    requires Ascending(s) && 0 < n <= |s|
    ensures SumTo(s, n) <= n as real * s[n - 1]
  {
    if n > 1 {
      LeadingMeanAtMostLast(s, n - 1);
      ScaleBound(n as real - 1.0, s[n - 2], s[n - 1]);
      assert n as real * s[n - 1] == (n as real - 1.0) * s[n - 1] + s[n - 1];
    }
  }

  /** Leading means of an ascending sample rise with the number of entries. */
  lemma {:induction false} LeadingMeansRise(s: seq<real>, m: nat, n: nat)
    requires Ascending(s) && 0 < m <= n <= |s|
    ensures LeadingMean(s, m) <= LeadingMean(s, n)
  {
    if m < n {
      LeadingMeansRise(s, m, n - 1);
      LeadingMeanAtMostLast(s, n - 1);
      NextMean(SumTo(s, n - 1), s[n - 2], s[n - 1], n as real - 1.0);
    }
  }

  lemma NextMean(sum: real, last: real, next: real, k: real)
    requires k > 0.0 && last <= next && sum <= k * last
    ensures sum / k <= (sum + next) / (k + 1.0)
  {
    var p, q := sum / k, (sum + next) / (k + 1.0);
    assert p * k == sum && q * (k + 1.0) == sum + next;
    ScaleBound(k, last, next);
    assert sum <= k * next;
    if p > next {
      ProductPositive(p - next, k, (p - next) * k);
    }
    if q < p {
      ProductPositive(p - q, k + 1.0, (p - q) * (k + 1.0));
    }
  }
}
