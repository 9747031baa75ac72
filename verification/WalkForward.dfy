/** Walk-forward windows (internal/backtest/walkforward.go) and the slices the bot takes with them (cmd/bot/main.go). */
module WalkForward {

  datatype Window = Window(trainStart: int, trainEnd: int, testStart: int, testEnd: int)

  function WindowAt(start: int, train: int, test: int): Window {
    Window(start, start + train, start + train, start + train + test)
  }

  predicate ValidArguments(total: int, train: int, test: int, step: int) {
    total > 0 && train > 0 && test > 0 && step > 0
  }

  /** How many windows fit. */
  function WindowCount(total: int, train: int, test: int, step: int): nat
    requires ValidArguments(total, train, test, step)
  {
    if train + test > total then 0 else (total - train - test) / step + 1
  }

  method Generate(total: int, train: int, test: int, step: int) returns (w: seq<Window>)
    ensures !ValidArguments(total, train, test, step) ==> w == []
    ensures ValidArguments(total, train, test, step) ==>
              && |w| == WindowCount(total, train, test, step)
              && forall k :: 0 <= k < |w| ==> w[k] == WindowAt(k * step, train, test)
    ensures forall k :: 0 <= k < |w| ==>
              && w[k].trainStart == k * step && w[k].trainEnd == w[k].trainStart + train
              && w[k].testStart == w[k].trainEnd && w[k].testEnd == w[k].testStart + test
  {
    w := [];
    if total <= 0 || train <= 0 || test <= 0 || step <= 0 {
      return;
    }
    var start := 0;
    while true
      invariant start == |w| * step
      invariant forall k :: 0 <= k < |w| ==> w[k] == WindowAt(k * step, train, test)
      invariant |w| > 0 ==> start + train + test <= total
      decreases total - start
    {
      var tr0, tr1 := start, start + train;
      var te0 := tr1;
      var te1 := te0 + test;
      if te1 > total {
        break;
      }
      NextMultiple(|w|, step);
      w := w + [Window(tr0, tr1, te0, te1)];
      start := start + step;
      if start + train + test > total {
        break;
      }
    }
    CountIsQuotient(total - train - test, step, |w|);
  }

  lemma NextMultiple(n: nat, step: int)
    ensures (n + 1) * step == n * step + step
  {
  }

  lemma MultipleIsLarge(n: nat, step: int)
    requires step > 0
    ensures n * step >= 0
    ensures n > 0 ==> n * step >= step
  {
    if n > 0 {
      MultipleIsLarge(n - 1, step);
      assert n * step == (n - 1) * step + step;
    }
  }

  lemma MultiplesAreOrdered(a: int, b: int, step: int)
    requires step > 0
    ensures a <= b ==> a * step <= b * step
    ensures a < b ==> a * step + step <= b * step
  {
    if a <= b {
      MultipleIsLarge(b - a, step);
      assert b * step - a * step == (b - a) * step;
    }
  }

  /** The loop stops on the first multiple of the step past the last start that fits. */
  lemma CountIsQuotient(room: int, step: int, n: nat)
    requires step > 0
    requires n * step > room
    requires n > 0 ==> (n - 1) * step <= room
    ensures n == if room < 0 then 0 else room / step + 1
  {
    MultiplesAreOrdered(0, n - 1, step);
    MultiplesAreOrdered(n, room / step, step);
    MultiplesAreOrdered(room / step + 1, n - 1, step);
    assert room / step * step <= room < (room / step + 1) * step;
  }

  /** A start position belongs to a generated window exactly when it is a multiple of the step whose window fits. */
  lemma ExactlyTheFittingWindows(total: int, train: int, test: int, step: int, k: nat)
    requires ValidArguments(total, train, test, step)
    ensures k < WindowCount(total, train, test, step) <==> k * step + train + test <= total
  {
    var room := total - train - test;
    MultiplesAreOrdered(0, k, step);
    MultiplesAreOrdered(k, room / step, step);
    MultiplesAreOrdered(room / step, k, step);
    assert room / step * step <= room < (room / step + 1) * step;
  }

  /** Every generated window slices the series in bounds. */
  lemma SlicesInBounds(total: int, train: int, test: int, step: int, k: nat)
    requires ValidArguments(total, train, test, step) && k < WindowCount(total, train, test, step)
    ensures var w := WindowAt(k * step, train, test);
            0 <= w.trainStart < w.trainEnd == w.testStart < w.testEnd <= total
  {
    ExactlyTheFittingWindows(total, train, test, step, k);
    MultiplesAreOrdered(0, k, step);
  }

  /** Two windows' test ranges are disjoint, and in order, exactly when the steps between them cover a test length. */
  lemma TestRangesDisjointIff(train: int, test: int, step: int, j: nat, k: nat)
    requires train > 0 && test > 0 && step > 0 && j < k
    ensures WindowAt(j * step, train, test).testEnd <= WindowAt(k * step, train, test).testStart <==>
            test <= (k - j) * step
    ensures step >= test ==> test <= (k - j) * step
  {
    assert k * step - j * step == (k - j) * step;
    MultiplesAreOrdered(1, k - j, step);
  }

  /** Neighbouring ones exactly when the step is at least the test length. */
  lemma NeighboursDisjointIff(train: int, test: int, step: int, k: nat)
    requires step > 0
    ensures WindowAt(k * step, train, test).testEnd <= WindowAt((k + 1) * step, train, test).testStart <==> step >= test
  {
    assert (k + 1) * step == k * step + step;
  }

  /** And they tile, each ending where the next begins, exactly when the step is the test length. */
  lemma TestRangesTileIff(train: int, test: int, step: int, k: nat)
    ensures WindowAt(k * step, train, test).testEnd == WindowAt((k + 1) * step, train, test).testStart <==> step == test
  {
    assert (k + 1) * step == k * step + step;
  }
}
