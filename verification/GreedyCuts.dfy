/**
 Greedy cutting of a tape of weighted items, by position. An item starts at each position the reader can stand on; the
 reader moves from an item to the next, and a cut is made only where it stands.
 */
module GreedyCuts {

  /** For each position: how long the item that starts there is, and what it weighs. */
  datatype Tape = Tape(size: nat, width: nat -> nat, units: nat -> nat)

  const HEAVIEST: nat := 2

  ghost predicate Lawful(t: Tape) {
    forall i: nat :: i < t.size ==> 1 <= t.width(i) <= t.size - i && t.units(i) <= HEAVIEST
  }

  /** Reading on from `a` passes through `b`. */
  ghost predicate Reads(t: Tape, a: nat, b: nat)
    requires Lawful(t) && a <= t.size
    decreases t.size - a
  {
    a == b || (a < t.size && a + t.width(a) <= b && Reads(t, a + t.width(a), b))
  }

  /** What the items from `a` up to `b` weigh. */
  ghost function Weight(t: Tape, a: nat, b: nat): nat
    requires Lawful(t) && a <= t.size
    decreases t.size - a
  {
    if a == t.size || b <= a then 0 else t.units(a) + Weight(t, a + t.width(a), b)
  }

  /** Where a chunk that has used some of its budget ends: it takes whole items while they fit. */
  ghost function Reach(t: Tape, i: nat, used: nat, budget: nat): (end: nat)
    requires Lawful(t) && i <= t.size
    ensures i <= end <= t.size
    decreases t.size - i
  {
    if i == t.size || used + t.units(i) > budget then i
    else Reach(t, i + t.width(i), used + t.units(i), budget)
  }

  /** Where the chunks end, one after the other. */
  ghost function Greedy(t: Tape, i: nat, budget: nat): seq<nat>
    requires Lawful(t) && budget >= HEAVIEST && i <= t.size
    decreases t.size - i
  {
    if i == t.size then []
    else
      var end := Reach(t, i, 0, budget);
      assert end > i;
      [end] + Greedy(t, end, budget)
  }

  // ---------- where the reader stands ----------

  lemma {:induction false} ReadsForward(t: Tape, a: nat, b: nat)
    requires Lawful(t) && a <= t.size && Reads(t, a, b)
    ensures a <= b <= t.size
    decreases t.size - a
  {
    if a != b {
      ReadsForward(t, a + t.width(a), b);
    }
  }

  lemma {:induction false} ReadsSplit(t: Tape, a: nat, b: nat, c: nat)
    requires Lawful(t) && a <= t.size && Reads(t, a, b) && Reads(t, a, c) && b <= c && b <= t.size
    ensures Reads(t, b, c)
    decreases t.size - a
  {
    if a != b {
      ReadsForward(t, a + t.width(a), b);
      ReadsSplit(t, a + t.width(a), b, c);
    }
  }

  // ---------- what one chunk is ----------

  /** A chunk ends where the reader stands and stays within the budget. */
  lemma {:induction false} ReachFits(t: Tape, i: nat, used: nat, budget: nat)
    requires Lawful(t) && i <= t.size && used <= budget
    ensures Reads(t, i, Reach(t, i, used, budget)) && used + Weight(t, i, Reach(t, i, used, budget)) <= budget
    decreases t.size - i
  {
    if i < t.size && used + t.units(i) <= budget {
      ReachFits(t, i + t.width(i), used + t.units(i), budget);
    }
  }

  /** No later position where the reader stands does. */
  lemma {:induction false} ReachIsLongest(t: Tape, i: nat, used: nat, budget: nat, e: nat)
    requires Lawful(t) && i <= t.size && Reads(t, i, e) && used + Weight(t, i, e) <= budget
    ensures e <= Reach(t, i, used, budget)
    decreases t.size - i
  {
    if i != e {
      ReachIsLongest(t, i + t.width(i), used + t.units(i), budget, e);
    }
  }

  lemma {:induction false} LaterWeighsNoMore(t: Tape, a: nat, b: nat, e: nat)
    requires Lawful(t) && a <= t.size && Reads(t, a, b) && b <= e && b <= t.size
    ensures Weight(t, b, e) <= Weight(t, a, e)
    decreases t.size - a
  {
    if a != b {
      ReadsForward(t, a + t.width(a), b);
      LaterWeighsNoMore(t, a + t.width(a), b, e);
    }
  }

  lemma {:induction false} LongerWeighsMore(t: Tape, a: nat, b: nat, e: nat)
    requires Lawful(t) && a <= t.size && Reads(t, a, b) && b <= e
    ensures Weight(t, a, b) <= Weight(t, a, e)
    decreases t.size - a
  {
    if a != b {
      ReadsForward(t, a + t.width(a), b);
      LongerWeighsMore(t, a + t.width(a), b, e);
    }
  }

  /** A chunk that starts inside another one reaches at least as far. */
  lemma LaterReachesFurther(t: Tape, h: nat, i: nat, budget: nat)
    requires Lawful(t) && budget >= HEAVIEST && h <= i <= t.size && Reads(t, h, i) && i <= Reach(t, h, 0, budget)
    ensures Reads(t, Reach(t, h, 0, budget), Reach(t, i, 0, budget))
    ensures Reach(t, h, 0, budget) <= Reach(t, i, 0, budget)
  {
    var e, f := Reach(t, h, 0, budget), Reach(t, i, 0, budget);
    ReachFits(t, h, 0, budget);
    ReachFits(t, i, 0, budget);
    LaterWeighsNoMore(t, h, i, e);
    ReadsSplit(t, h, i, e);
    ReachIsLongest(t, i, 0, budget, e);
    ReadsSplit(t, i, e, f);
  }

  // ---------- no division needs fewer chunks ----------

  lemma GreedyUnfolds(t: Tape, i: nat, end: nat, budget: nat)
    requires Lawful(t) && budget >= HEAVIEST && i < t.size && end == Reach(t, i, 0, budget)
    ensures i < end <= t.size && Greedy(t, i, budget) == [end] + Greedy(t, end, budget)
  {
  }

  /** Starting later, where the reader stands, never needs more chunks. */
  lemma {:induction false} LaterNeedsNoMore(t: Tape, h: nat, i: nat, budget: nat)
    requires Lawful(t) && budget >= HEAVIEST && h <= i <= t.size && Reads(t, h, i)
    ensures |Greedy(t, i, budget)| <= |Greedy(t, h, budget)|
    decreases t.size - h
  {
    if i < t.size {
      var e := Reach(t, h, 0, budget);
      GreedyUnfolds(t, h, e, budget);
      if i >= e {
        ReachFits(t, h, 0, budget);
        ReadsSplit(t, h, e, i);
        LaterNeedsNoMore(t, e, i, budget);
      } else {
        var f := Reach(t, i, 0, budget);
        GreedyUnfolds(t, i, f, budget);
        LaterReachesFurther(t, h, i, budget);
        LaterNeedsNoMore(t, e, f, budget);
      }
    }
  }

  /** Whatever is cut off first, what remains still needs all but one of the chunks. */
  lemma FirstCutNeedsNoMore(t: Tape, i: nat, e: nat, budget: nat)
    requires Lawful(t) && budget >= HEAVIEST && i < t.size && i <= e <= t.size && Reads(t, i, e)
    requires Weight(t, i, e) <= budget
    ensures |Greedy(t, i, budget)| <= 1 + |Greedy(t, e, budget)|
  {
    var f := Reach(t, i, 0, budget);
    GreedyUnfolds(t, i, f, budget);
    ReachIsLongest(t, i, 0, budget, e);
    ReachFits(t, i, 0, budget);
    ReadsSplit(t, i, e, f);
    LaterNeedsNoMore(t, e, f, budget);
  }

  // ---------- the same items, heavier ----------

  /** The tapes have the same items, and none is lighter on the second. */
  ghost predicate Heavier(t: Tape, h: Tape) {
    && Lawful(t) && Lawful(h) && t.size == h.size
    && forall i: nat :: i < t.size ==> t.width(i) == h.width(i) && t.units(i) <= h.units(i)
  }

  lemma {:induction false} SameReads(t: Tape, h: Tape, a: nat, b: nat)
    requires Heavier(t, h) && a <= t.size
    ensures Reads(t, a, b) <==> Reads(h, a, b)
    decreases t.size - a
  {
    if a < t.size && a + t.width(a) <= b {
      SameReads(t, h, a + t.width(a), b);
    }
  }

  lemma {:induction false} HeavierReachesLess(t: Tape, h: Tape, i: nat, used: nat, used': nat, budget: nat)
    requires Heavier(t, h) && i <= t.size && used <= used'
    ensures Reach(h, i, used', budget) <= Reach(t, i, used, budget)
    decreases t.size - i
  {
    if i < t.size && used' + h.units(i) <= budget {
      HeavierReachesLess(t, h, i + t.width(i), used + t.units(i), used' + h.units(i), budget);
    }
  }

  /** From `i` on the items weigh the same on both. */
  ghost predicate SameFrom(t: Tape, h: Tape, i: nat)
    requires Heavier(t, h) && i <= t.size
    decreases t.size - i
  {
    i == t.size || (t.units(i) == h.units(i) && SameFrom(t, h, i + t.width(i)))
  }

  lemma {:induction false} SameReach(t: Tape, h: Tape, i: nat, used: nat, budget: nat)
    requires Heavier(t, h) && i <= t.size && SameFrom(t, h, i)
    ensures Reach(h, i, used, budget) == Reach(t, i, used, budget)
    ensures SameFrom(t, h, Reach(t, i, used, budget))
    decreases t.size - i
  {
    if i < t.size {
      SameReach(t, h, i + t.width(i), used + t.units(i), budget);
    }
  }

  lemma {:induction false} SameCuts(t: Tape, h: Tape, i: nat, budget: nat)
    requires Heavier(t, h) && i <= t.size && SameFrom(t, h, i) && budget >= HEAVIEST
    ensures Greedy(t, i, budget) == Greedy(h, i, budget)
    decreases t.size - i
  {
    if i < t.size {
      var e := Reach(t, i, 0, budget);
      SameReach(t, h, i, 0, budget);
      GreedyUnfolds(t, i, e, budget);
      GreedyUnfolds(h, i, e, budget);
      SameCuts(t, h, e, budget);
    }
  }
}
